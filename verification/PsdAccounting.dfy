/**
 Accounting of the reassembler over whole runs: every buffer that was made is published, dropped or
 still waiting, and drops count what was missing.
 */
module PsdAccounting {
  import opened LittleEndian
  import opened Packets
  import opened PsdReassembly

  datatype Segment = Segment(header: PsdHeader, payload: seq<byte>)

  function KeyOf(m: Segment): Key {
    (m.header.psdId, m.header.frameSeq)
  }

  /** A run since reset: the reassembler, the buffers made, and what each call returned. */
  datatype Trace = Trace(r: Reassembler, created: nat, outcomes: seq<Outcome>)

  ghost function Advance(t: Trace, m: Segment): Trace {
    var dropped := DropOlder(t.r, m.header.psdId, m.header.frameSeq);
    var (r', outcome) := Ingest(t.r, m.header, m.payload);
    Trace(r', t.created + (if KeyOf(m) in dropped.frames then 0 else 1), t.outcomes + [outcome])
  }

  ghost function Run(ms: seq<Segment>): Trace {
    if ms == [] then Trace(Empty(), 0, []) else Advance(Run(ms[..|ms| - 1]), ms[|ms| - 1])
  }

  lemma MapMinusSize<K, V>(m: map<K, V>, keys: set<K>)
    requires keys <= m.Keys
    ensures |m - keys| == |m| - |keys|
  {
    assert (m - keys).Keys == m.Keys - keys;
  }

  function Accounted(r: Reassembler): nat {
    r.stats.completeFrames + r.stats.droppedFrames + |r.frames|
  }

  lemma DropKeepsAccount(r: Reassembler, psdId: int, frameSeq: int)
    ensures Accounted(DropOlder(r, psdId, frameSeq)) == Accounted(r)
  {
    MapMinusSize(r.frames, Stale(r.frames, psdId, frameSeq));
  }

  lemma MapPlusSize<K, V>(m: map<K, V>, k: K, v: V)
    ensures |m[k := v]| == |m| + if k in m then 0 else 1
    ensures |m - {k}| == |m| - if k in m then 1 else 0
  {
    assert m[k := v].Keys == m.Keys + {k};
    assert (m - {k}).Keys == m.Keys - {k};
  }

  lemma StoreAccount(r: Reassembler, m: Segment)
    ensures Accounted(Store(r, m.header, m.payload).0) == Accounted(r) + if KeyOf(m) in r.frames then 0 else 1
  {
    MapPlusSize(r.frames, KeyOf(m), Buffered(r, m.header, m.payload));
  }

  /** In every run, for any headers at all: buffers made = published + dropped + in progress. */
  lemma {:induction false} BuffersConserved(ms: seq<Segment>)
    ensures Run(ms).created == Accounted(Run(ms).r)
  {
    if ms != [] {
      var t, m := Run(ms[..|ms| - 1]), ms[|ms| - 1];
      BuffersConserved(ms[..|ms| - 1]);
      DropKeepsAccount(t.r, m.header.psdId, m.header.frameSeq);
      StoreAccount(DropOlder(t.r, m.header.psdId, m.header.frameSeq), m);
    }
  }

  /** After a call, no buffered frame of that PSD is older than the one just ingested. */
  lemma NothingOlderRemains(r: Reassembler, m: Segment)
    ensures forall k :: k in Ingest(r, m.header, m.payload).0.frames && k.0 == m.header.psdId ==>
              !SeqLess(k.1, m.header.frameSeq)
  {
    var d := DropOlder(r, m.header.psdId, m.header.frameSeq);
    forall k | k in Store(d, m.header, m.payload).0.frames && k.0 == m.header.psdId
      ensures !SeqLess(k.1, m.header.frameSeq)
    {
      assert k in d.frames || k == KeyOf(m);
    }
  }

  // ---- well-formed headers ----------------------------------------------------------------------------

  /** Segments of one frame agree on the segment count, and indices are below it. */
  ghost predicate WellFormed(ms: seq<Segment>, count: Key -> int) {
    forall i :: 0 <= i < |ms| ==> WellFormedSegment(ms[i], count)
  }

  predicate WellFormedSegment(m: Segment, count: Key -> int) {
    && m.header.segmentCount == count(KeyOf(m)) >= 1
    && 0 <= m.header.segmentIndex < count(KeyOf(m))
  }

  predicate PartlyFilled(f: FrameBuffer, n: int) {
    && f.header.segmentCount == n
    && (forall i :: i in f.segments ==> 0 <= i < n)
    && 1 <= |f.segments| < n
  }

  /** Every buffered frame has some but not all of its segments, of which there are at most `most`. */
  ghost predicate AllPartlyFilled(frames: map<Key, FrameBuffer>, count: Key -> int, most: int) {
    forall k :: k in frames ==> PartlyFilled(frames[k], count(k)) && count(k) <= most
  }

  lemma {:induction false} RangeSize(s: set<int>, n: nat)
    requires forall i :: i in s ==> 0 <= i < n
    ensures |s| <= n
  {
    if n == 0 {
      var none: set<int> := {};
      forall i
        ensures i in s <==> i in none
      {
      }
      assert s == none;
    } else {
      RangeSize(s - {n - 1}, n - 1);
    }
  }

  /** Indices below `n` that do not cover all of them are fewer than `n`. */
  lemma GapMeansFewer(segments: map<int, seq<byte>>, n: nat)
    requires forall i :: i in segments ==> 0 <= i < n
    requires !IsComplete(segments, n)
    ensures |segments| < n
  {
    if !HasAll(segments, n) {
      var hole :| 0 <= hole < n && hole !in segments;
      RangeSize(segments.Keys + {hole}, n);
      assert |segments.Keys + {hole}| == |segments.Keys| + 1;
    }
  }

  lemma StorePartlyFilled(r: Reassembler, m: Segment, count: Key -> int, most: int)
    requires AllPartlyFilled(r.frames, count, most) && WellFormedSegment(m, count) && count(KeyOf(m)) <= most
    ensures AllPartlyFilled(Store(r, m.header, m.payload).0.frames, count, most)
  {
    var k, f := KeyOf(m), Buffered(r, m.header, m.payload);
    assert m.header.segmentIndex in f.segments;
    assert |f.segments| >= 1;
    forall i | i in f.segments
      ensures 0 <= i < count(k)
    {
    }
    if !IsComplete(f.segments, m.header.segmentCount) {
      GapMeansFewer(f.segments, m.header.segmentCount);
    }
  }

  /** Dropped frames lack at least one segment each and at most all but one. */
  lemma {:induction false} DropsCountMissing(frames: map<Key, FrameBuffer>, keys: set<Key>, count: Key -> int,
                                             most: int)
    requires keys <= frames.Keys && AllPartlyFilled(frames, count, most)
    ensures |keys| <= TotalMissing(frames, keys) <= |keys| * (most - 1)
    decreases keys
  {
    if keys != {} {
      var k :| k in keys;
      var rest := keys - {k};
      TotalMissingPick(frames, keys, k);
      DropsCountMissing(frames, rest, count, most);
      assert PartlyFilled(frames[k], count(k));
      Distribute(|rest|, 1, most - 1);
      assert |keys| == |rest| + 1;
    }
  }

  lemma Distribute(a: nat, b: nat, c: int)
    ensures (a + b) * c == a * c + b * c
  {
  }

  ghost predicate DropsAccounted(s: Stats, most: int) {
    s.droppedFrames <= s.missingSegments <= s.droppedFrames * (most - 1)
  }

  lemma DropKeeps(r: Reassembler, psdId: int, frameSeq: int, count: Key -> int, most: int)
    requires AllPartlyFilled(r.frames, count, most) && DropsAccounted(r.stats, most)
    ensures var d := DropOlder(r, psdId, frameSeq);
            AllPartlyFilled(d.frames, count, most) && DropsAccounted(d.stats, most)
  {
    var stale := Stale(r.frames, psdId, frameSeq);
    DropsCountMissing(r.frames, stale, count, most);
    Distribute(r.stats.droppedFrames, |stale|, most - 1);
  }

  /**
   In every run of well-formed segments, each buffered frame holds at least one and not all of its
   segments, and each dropped frame added between one and its count minus one to the missing total.
   */
  lemma {:induction false} WellFormedRun(ms: seq<Segment>, count: Key -> int, most: int)
    requires WellFormed(ms, count) && forall i :: 0 <= i < |ms| ==> count(KeyOf(ms[i])) <= most
    ensures AllPartlyFilled(Run(ms).r.frames, count, most) && DropsAccounted(Run(ms).r.stats, most)
  {
    if ms != [] {
      var init, m := ms[..|ms| - 1], ms[|ms| - 1];
      WellFormedRun(init, count, most);
      var r := Run(init).r;
      DropKeeps(r, m.header.psdId, m.header.frameSeq, count, most);
      StorePartlyFilled(DropOlder(r, m.header.psdId, m.header.frameSeq), m, count, most);
    }
  }

  /** A buffered frame that a segment makes obsolete: one of the same PSD, less than 2^31 behind it modulo 2^32. */
  predicate Overtaken(k: Key, m: Segment) {
    && k.0 == m.header.psdId && k.1 != m.header.frameSeq
    && (m.header.frameSeq - k.1) % 0x1_0000_0000 < 0x8000_0000
  }

  lemma StoreLeavesOthers(r: Reassembler, m: Segment, k: Key)
    requires k != KeyOf(m)
    ensures var r' := Store(r, m.header, m.payload).0;
            (k in r'.frames <==> k in r.frames) && (k in r.frames ==> r'.frames[k] == r.frames[k])
  {
  }

  lemma DropLeaves(r: Reassembler, m: Segment, k: Key)
    requires k in r.frames
    ensures var r' := DropOlder(r, m.header.psdId, m.header.frameSeq);
            (k in r'.frames <==> !Overtaken(k, m)) && (k in r'.frames ==> r'.frames[k] == r.frames[k])
  {
  }

  /** Of the other frames, a segment removes exactly those it overtakes and leaves the rest as they are. */
  lemma OnlyOvertakenLeave(r: Reassembler, m: Segment, k: Key)
    requires k in r.frames && k != KeyOf(m)
    ensures var r' := Ingest(r, m.header, m.payload).0;
            && (k in r'.frames <==> !Overtaken(k, m))
            && (k in r'.frames ==> r'.frames[k] == r.frames[k])
  {
    DropLeaves(r, m, k);
    StoreLeavesOthers(DropOlder(r, m.header.psdId, m.header.frameSeq), m, k);
  }

  /** A segment that does not complete its frame is kept in it, in place of an earlier one of the same index. */
  lemma SegmentIsKept(r: Reassembler, m: Segment, i: int)
    requires Ingest(r, m.header, m.payload).1.Incomplete?
    ensures var r', key := Ingest(r, m.header, m.payload).0, KeyOf(m);
            && key in r'.frames
            && var was, now := if key in r.frames then r.frames[key].segments else map[], r'.frames[key].segments;
               && m.header.segmentIndex in now && now[m.header.segmentIndex] == m.payload
               && (i != m.header.segmentIndex ==> (i in now <==> i in was) && (i in now ==> now[i] == was[i]))
  {
  }
}
