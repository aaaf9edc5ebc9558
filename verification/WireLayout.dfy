/**
 The two headers byte by byte: which bytes hold which member, and which bytes a receiver takes.
 */
module WireLayout {
  import opened LittleEndian
  import opened Modular
  import opened Options
  import opened Packets

  // ---- members by offset ------------------------------------------------------------------------------------------

  /** Where member `i` starts. */
  function Offset(fs: seq<Field>, i: nat): nat
    requires i <= |fs|
  {
    if i == 0 then 0 else Offset(fs, i - 1) + fs[i - 1].width
  }

  lemma {:induction false} OffsetTail(fs: seq<Field>, i: nat)
    requires 0 < i <= |fs|
    ensures Offset(fs, i) == fs[0].width + Offset(fs[1..], i - 1)
  {
    if i > 1 {
      OffsetTail(fs, i - 1);
    }
  }

  lemma SliceOfTail(data: seq<byte>, w: nat, at: nat, n: nat)
    requires w + at + n <= |data|
    ensures data[w..][at..at + n] == data[w + at..w + at + n]
  {
  }

  /** The value that a member has, its bytes starting at `at`. */
  predicate HasValue(f: Field, data: seq<byte>, at: nat, v: int) {
    at + f.width <= |data| && v == DecodeField(f, data[at..at + f.width])
  }

  lemma ValueInTail(f: Field, data: seq<byte>, w: nat, at: nat, v: int)
    requires w <= |data| && HasValue(f, data[w..], at, v)
    ensures HasValue(f, data, w + at, v)
  {
    SliceOfTail(data, w, at, f.width);
  }

  lemma UnpackTail(fs: seq<Field>, data: seq<byte>, vs: seq<int>)
    requires fs != [] && |data| >= SizeOf(fs) && vs == UnpackStruct(fs, data)
    ensures fs[0].width + SizeOf(fs[1..]) <= |data| && vs[1..] == UnpackStruct(fs[1..], data[fs[0].width..])
    ensures HasValue(fs[0], data, 0, vs[0])
  {
    assert data[0..0 + fs[0].width] == data[..fs[0].width];
  }

  lemma {:induction false} MemberAt(fs: seq<Field>, data: seq<byte>, vs: seq<int>, i: nat)
    requires |data| >= SizeOf(fs) && i < |fs| && vs == UnpackStruct(fs, data)
    ensures HasValue(fs[i], data, Offset(fs, i), vs[i])
  {
    UnpackTail(fs, data, vs);
    if i > 0 {
      var w, rest := fs[0].width, fs[1..];
      MemberAt(rest, data[w..], vs[1..], i - 1);
      ValueInTail(rest[i - 1], data, w, Offset(rest, i - 1), vs[i]);
      OffsetTail(fs, i);
    }
  }

  /** An unsigned member `i` of `w` bytes, starting at byte `at`. */
  lemma Member(fs: seq<Field>, data: seq<byte>, i: nat, at: nat, w: nat)
    requires |data| >= SizeOf(fs) && i < |fs| && fs[i] == U(w) && Offset(fs, i) == at
    ensures at + w <= |data| && UnpackStruct(fs, data)[i] == FromLe(data[at..at + w])
    ensures Offset(fs, i + 1) == at + w
  {
    MemberAt(fs, data, UnpackStruct(fs, data), i);
  }

  lemma SignedMember(fs: seq<Field>, data: seq<byte>, i: nat, at: nat)
    requires |data| >= SizeOf(fs) && i < |fs| && fs[i] == S(2) && Offset(fs, i) == at
    ensures at + 2 <= |data| && UnpackStruct(fs, data)[i] == Signed16(FromLe(data[at..at + 2]))
    ensures Offset(fs, i + 1) == at + 2
  {
    MemberAt(fs, data, UnpackStruct(fs, data), i);
    Powers();
    FromLeFits(data[at..at + 2]);
  }

  lemma FromLeFits(b: seq<byte>)
    ensures FromLe(b) < Pow256(|b|)
  {
    LeFromLe(b);
  }

  /** What fits a member of the formats. */
  predicate InRange(f: Field, v: int) {
    match f
    case U(w) => if w == 2 then 0 <= v < 0x1_0000 else if w == 4 then 0 <= v < WORD else 0 <= v < STAMP
    case S(_) => -0x8000 <= v < 0x8000
  }

  lemma FitIff(f: Field, v: int)
    requires f == U(2) || f == U(4) || f == U(8) || f == S(2)
    ensures Fits(f, v) <==> InRange(f, v)
  {
    Powers();
  }

  /** Two bytes that hold a number. */
  lemma TwoBytesAre(b: seq<byte>, v: nat)
    requires |b| == 2 && v < 0x1_0000
    ensures FromLe(b) == v <==> b == [v % 256, v / 256]
  {
    assert b[1..][1..] == [] && FromLe(b[1..]) == b[1] as nat;
    assert FromLe(b) == b[0] as nat + 256 * (b[1] as nat);
  }

  lemma FourBytesAre(b: seq<byte>, c: seq<byte>)
    requires |b| == |c| == 4
    ensures FromLe(b) == FromLe(c) <==> b == c
  {
    LeFromLe(b);
    LeFromLe(c);
  }

  // ---- the PSD header ------------------------------------------------------------------------------------

  /** What each member is, by its bytes. */
  predicate PsdBytes(h: PsdHeader, b: seq<byte>) {
    && |b| >= 72
    && h.magic == FromLe(b[0..4]) && h.version == FromLe(b[4..6])
    && h.headerLen == FromLe(b[6..8]) && h.frameType == FromLe(b[8..10])
    && h.psdId == FromLe(b[10..12]) && h.frameSeq == FromLe(b[12..16])
    && h.adcTimestamp == FromLe(b[16..24]) && h.startFrequencyHz == FromLe(b[24..32])
    && h.binSpacingMillihz == FromLe(b[32..40]) && h.fftSize == FromLe(b[40..44])
    && h.totalBins == FromLe(b[44..46]) && h.segmentIndex == FromLe(b[46..48])
    && h.segmentCount == FromLe(b[48..50]) && h.binStart == FromLe(b[50..52])
    && h.binCount == FromLe(b[52..54]) && h.sampleFormat == FromLe(b[54..56])
    && h.flags == FromLe(b[56..58]) && h.averagingCount == FromLe(b[58..60])
    && h.payloadBytes == FromLe(b[60..64]) && h.stopFrequencyHz == FromLe(b[64..72])
  }

  lemma FirstPsdMembers(fs: seq<Field>, b: seq<byte>)
    requires fs == PsdFields() && |b| >= SizeOf(fs) == 72
    ensures var vs := UnpackStruct(fs, b);
            && |vs| == 20 && Offset(fs, 6) == 16
            && vs[0] == FromLe(b[0..4]) && vs[1] == FromLe(b[4..6]) && vs[2] == FromLe(b[6..8])
            && vs[3] == FromLe(b[8..10]) && vs[4] == FromLe(b[10..12]) && vs[5] == FromLe(b[12..16])
  {
    Member(fs, b, 0, 0, 4);
    Member(fs, b, 1, 4, 2);
    Member(fs, b, 2, 6, 2);
    Member(fs, b, 3, 8, 2);
    Member(fs, b, 4, 10, 2);
    Member(fs, b, 5, 12, 4);
  }

  lemma MiddlePsdMembers(fs: seq<Field>, b: seq<byte>)
    requires fs == PsdFields() && |b| >= SizeOf(fs) == 72 && Offset(fs, 6) == 16
    ensures var vs := UnpackStruct(fs, b);
            && |vs| == 20 && Offset(fs, 13) == 50
            && vs[6] == FromLe(b[16..24]) && vs[7] == FromLe(b[24..32]) && vs[8] == FromLe(b[32..40])
            && vs[9] == FromLe(b[40..44]) && vs[10] == FromLe(b[44..46]) && vs[11] == FromLe(b[46..48])
            && vs[12] == FromLe(b[48..50])
  {
    Member(fs, b, 6, 16, 8);
    Member(fs, b, 7, 24, 8);
    Member(fs, b, 8, 32, 8);
    Member(fs, b, 9, 40, 4);
    Member(fs, b, 10, 44, 2);
    Member(fs, b, 11, 46, 2);
    Member(fs, b, 12, 48, 2);
  }

  lemma LastPsdMembers(fs: seq<Field>, b: seq<byte>)
    requires fs == PsdFields() && |b| >= SizeOf(fs) == 72 && Offset(fs, 13) == 50
    ensures var vs := UnpackStruct(fs, b);
            && |vs| == 20 && Offset(fs, 20) == 72
            && vs[13] == FromLe(b[50..52]) && vs[14] == FromLe(b[52..54]) && vs[15] == FromLe(b[54..56])
            && vs[16] == FromLe(b[56..58]) && vs[17] == FromLe(b[58..60]) && vs[18] == FromLe(b[60..64])
            && vs[19] == FromLe(b[64..72])
  {
    Member(fs, b, 13, 50, 2);
    Member(fs, b, 14, 52, 2);
    Member(fs, b, 15, 54, 2);
    Member(fs, b, 16, 56, 2);
    Member(fs, b, 17, 58, 2);
    Member(fs, b, 18, 60, 4);
    Member(fs, b, 19, 64, 8);
  }

  /** The first thing that is wrong with some bytes, in the order of the checks. */
  function PsdFault(b: seq<byte>): Option<PacketError> {
    if |b| < 72 then Some(TooShort)
    else if b[0..4] != [0x53, 0x44, 0x50, 0x53] then Some(BadMagic)
    else if b[4..6] != [1, 0] then Some(BadVersion)
    else if b[6..8] != [72, 0] then Some(BadHeaderLength)
    else if b[8..10] != [2, 0] then Some(BadFrameType)
    else if b[54..56] != [1, 0] then Some(BadSampleFormat)
    else if FromLe(b[60..64]) != 2 * FromLe(b[52..54]) then Some(BadPayloadBytes)
    else None
  }

  lemma PsdMagic(b: seq<byte>)
    requires |b| == 4
    ensures FromLe(b) == PSD_MAGIC <==> b == [0x53, 0x44, 0x50, 0x53]
  {
    var m: seq<byte> := [0x53, 0x44, 0x50, 0x53];
    assert m == Le(4, PSD_MAGIC);
    Powers();
    FromLeLe(4, PSD_MAGIC);
    FourBytesAre(b, m);
  }

  lemma PsdUnpacked(b: seq<byte>, h: PsdHeader)
    requires SizeOf(PsdFields()) == 72 <= |b| && h == PsdFromValues(UnpackStruct(PsdFields(), b))
    ensures PsdBytes(h, b)
  {
    FirstPsdMembers(PsdFields(), b);
    MiddlePsdMembers(PsdFields(), b);
    LastPsdMembers(PsdFields(), b);
  }

  lemma PsdFaultOf(b: seq<byte>, h: PsdHeader)
    requires PsdBytes(h, b)
    ensures h.Validate() == if PsdFault(b) == None then Ok(()) else Err(PsdFault(b).value)
  {
    PsdConstants(b);
  }

  /** The bytes of the constants. */
  lemma PsdConstants(b: seq<byte>)
    requires |b| >= 72
    ensures FromLe(b[0..4]) == PSD_MAGIC <==> b[0..4] == [0x53, 0x44, 0x50, 0x53]
    ensures FromLe(b[4..6]) == 1 <==> b[4..6] == [1, 0]
    ensures FromLe(b[6..8]) == 72 <==> b[6..8] == [72, 0]
    ensures FromLe(b[8..10]) == 2 <==> b[8..10] == [2, 0]
    ensures FromLe(b[54..56]) == 1 <==> b[54..56] == [1, 0]
  {
    PsdMagic(b[0..4]);
    TwoBytesAre(b[4..6], 1);
    TwoBytesAre(b[6..8], 72);
    TwoBytesAre(b[8..10], 2);
    TwoBytesAre(b[54..56], 1);
  }

  /** Bytes unpack exactly when nothing is wrong with them, and then each member is read from its own bytes. */
  lemma PsdLayout(b: seq<byte>)
    ensures UnpackPsd(b).Ok? <==> PsdFault(b) == None
    ensures UnpackPsd(b).Err? ==> PsdFault(b) == Some(UnpackPsd(b).error)
    ensures UnpackPsd(b).Ok? ==> PsdBytes(UnpackPsd(b).value, b)
  {
    if |b| >= 72 {
      PsdSize();
      var h := PsdFromValues(UnpackStruct(PsdFields(), b));
      PsdUnpacked(b, h);
      PsdFaultOf(b, h);
    }
  }

  /** The constants of the format, and each other member within its width. */
  predicate PsdPackable(h: PsdHeader) {
    && h.magic == PSD_MAGIC && h.version == 1 && h.headerLen == 72
    && h.frameType == 2 && 0 <= h.psdId < 0x1_0000 && 0 <= h.frameSeq < WORD
    && 0 <= h.adcTimestamp < STAMP && 0 <= h.startFrequencyHz < STAMP && 0 <= h.binSpacingMillihz < STAMP
    && 0 <= h.fftSize < WORD && 0 <= h.totalBins < 0x1_0000 && 0 <= h.segmentIndex < 0x1_0000
    && 0 <= h.segmentCount < 0x1_0000 && 0 <= h.binStart < 0x1_0000 && 0 <= h.binCount < 0x1_0000
    && h.sampleFormat == 1 && 0 <= h.flags < 0x1_0000 && 0 <= h.averagingCount < 0x1_0000
    && h.payloadBytes == 2 * h.binCount && 0 <= h.stopFrequencyHz < STAMP
  }

  predicate PsdRanges(vs: seq<int>)
    requires |vs| == 20
  {
    && 0 <= vs[0] < WORD && 0 <= vs[1] < 0x1_0000 && 0 <= vs[2] < 0x1_0000 && 0 <= vs[3] < 0x1_0000
    && 0 <= vs[4] < 0x1_0000 && 0 <= vs[5] < WORD && 0 <= vs[6] < STAMP && 0 <= vs[7] < STAMP
    && 0 <= vs[8] < STAMP && 0 <= vs[9] < WORD && 0 <= vs[10] < 0x1_0000 && 0 <= vs[11] < 0x1_0000
    && 0 <= vs[12] < 0x1_0000 && 0 <= vs[13] < 0x1_0000 && 0 <= vs[14] < 0x1_0000 && 0 <= vs[15] < 0x1_0000
    && 0 <= vs[16] < 0x1_0000 && 0 <= vs[17] < 0x1_0000 && 0 <= vs[18] < WORD && 0 <= vs[19] < STAMP
  }

  lemma PsdFit(fs: seq<Field>, vs: seq<int>)
    requires fs == PsdFields() && |vs| == 20
    ensures AllFit(fs, vs) <==> PsdRanges(vs)
  {
    forall i | 0 <= i < 20
      ensures Fits(fs[i], vs[i]) <==> InRange(PsdField(i), vs[i])
    {
      FitIff(fs[i], vs[i]);
    }
    if AllFit(fs, vs) {
      assert forall i :: 0 <= i < 20 ==> InRange(PsdField(i), vs[i]);
    }
  }

  lemma PsdRangesIff(h: PsdHeader, vs: seq<int>)
    requires vs == h.Values() && h.Validate().Ok?
    ensures PsdRanges(vs) <==> PsdPackable(h)
  {
  }

  lemma PsdPacksIff(h: PsdHeader)
    ensures PackPsd(h).Ok? <==> PsdPackable(h)
  {
    if h.Validate().Ok? {
      PsdFit(PsdFields(), h.Values());
      PsdRangesIff(h, h.Values());
    }
  }

  /** A header that packs fills 72 bytes, each member in its own. */
  lemma PackedPsdLayout(h: PsdHeader)
    requires PackPsd(h).Ok?
    ensures var b := PackPsd(h).value; |b| == 72 && PsdBytes(h, b) && PsdFault(b) == None
  {
    var b := PackPsd(h).value;
    PsdRoundTrip(h, []);
    assert b + [] == b;
    PsdLayout(b);
  }

  // ---- the IQ header ------------------------------------------------------------------------------------

  /** What each member is, by its bytes. */
  predicate IqBytes(h: IqHeader, b: seq<byte>) {
    && |b| >= 64
    && h.magic == FromLe(b[0..4]) && h.version == FromLe(b[4..6])
    && h.headerLen == FromLe(b[6..8]) && h.frameType == FromLe(b[8..10])
    && h.streamId == FromLe(b[10..12]) && h.seqNo == FromLe(b[12..16])
    && h.adcTimestamp == FromLe(b[16..24]) && h.frequencyHz == FromLe(b[24..32])
    && h.iqSampleRateHz == FromLe(b[32..36]) && h.bandwidthHz == FromLe(b[36..40])
    && h.sampleFormat == FromLe(b[40..42]) && h.sampleCount == FromLe(b[42..44])
    && h.flags == FromLe(b[44..46]) && h.gainDbQ8 == Signed16(FromLe(b[46..48]))
    && h.decimation == FromLe(b[48..52]) && h.payloadBytes == FromLe(b[52..56])
    && h.reserved0 == FromLe(b[56..64])
  }

  lemma FirstIqMembers(fs: seq<Field>, b: seq<byte>)
    requires fs == IqFields() && |b| >= SizeOf(fs) == 64
    ensures var vs := UnpackStruct(fs, b);
            && |vs| == 17 && Offset(fs, 6) == 16
            && vs[0] == FromLe(b[0..4]) && vs[1] == FromLe(b[4..6]) && vs[2] == FromLe(b[6..8])
            && vs[3] == FromLe(b[8..10]) && vs[4] == FromLe(b[10..12]) && vs[5] == FromLe(b[12..16])
  {
    Member(fs, b, 0, 0, 4);
    Member(fs, b, 1, 4, 2);
    Member(fs, b, 2, 6, 2);
    Member(fs, b, 3, 8, 2);
    Member(fs, b, 4, 10, 2);
    Member(fs, b, 5, 12, 4);
  }

  lemma MiddleIqMembers(fs: seq<Field>, b: seq<byte>)
    requires fs == IqFields() && |b| >= SizeOf(fs) == 64 && Offset(fs, 6) == 16
    ensures var vs := UnpackStruct(fs, b);
            && |vs| == 17 && Offset(fs, 12) == 44
            && vs[6] == FromLe(b[16..24]) && vs[7] == FromLe(b[24..32]) && vs[8] == FromLe(b[32..36])
            && vs[9] == FromLe(b[36..40]) && vs[10] == FromLe(b[40..42]) && vs[11] == FromLe(b[42..44])
  {
    Member(fs, b, 6, 16, 8);
    Member(fs, b, 7, 24, 8);
    Member(fs, b, 8, 32, 4);
    Member(fs, b, 9, 36, 4);
    Member(fs, b, 10, 40, 2);
    Member(fs, b, 11, 42, 2);
  }

  lemma LastIqMembers(fs: seq<Field>, b: seq<byte>)
    requires fs == IqFields() && |b| >= SizeOf(fs) == 64 && Offset(fs, 12) == 44
    ensures var vs := UnpackStruct(fs, b);
            && |vs| == 17 && Offset(fs, 17) == 64
            && vs[12] == FromLe(b[44..46]) && vs[13] == Signed16(FromLe(b[46..48])) && vs[14] == FromLe(b[48..52])
            && vs[15] == FromLe(b[52..56]) && vs[16] == FromLe(b[56..64])
  {
    Member(fs, b, 12, 44, 2);
    SignedMember(fs, b, 13, 46);
    Member(fs, b, 14, 48, 4);
    Member(fs, b, 15, 52, 4);
    Member(fs, b, 16, 56, 8);
  }

  /** The first thing that is wrong with some bytes, in the order of the checks. */
  function IqFault(b: seq<byte>): Option<PacketError> {
    if |b| < 64 then Some(TooShort)
    else if b[0..4] != [0x53, 0x44, 0x49, 0x51] then Some(BadMagic)
    else if b[4..6] != [1, 0] then Some(BadVersion)
    else if b[6..8] != [64, 0] then Some(BadHeaderLength)
    else if b[8..10] != [1, 0] then Some(BadFrameType)
    else if b[40..42] != [1, 0] then Some(BadSampleFormat)
    else if FromLe(b[52..56]) != 4 * FromLe(b[42..44]) then Some(BadPayloadBytes)
    else None
  }

  lemma IqMagic(b: seq<byte>)
    requires |b| == 4
    ensures FromLe(b) == IQ_MAGIC <==> b == [0x53, 0x44, 0x49, 0x51]
  {
    var m: seq<byte> := [0x53, 0x44, 0x49, 0x51];
    assert m == Le(4, IQ_MAGIC);
    Powers();
    FromLeLe(4, IQ_MAGIC);
    FourBytesAre(b, m);
  }

  lemma IqUnpacked(b: seq<byte>, h: IqHeader)
    requires SizeOf(IqFields()) == 64 <= |b| && h == IqFromValues(UnpackStruct(IqFields(), b))
    ensures IqBytes(h, b)
  {
    FirstIqMembers(IqFields(), b);
    MiddleIqMembers(IqFields(), b);
    LastIqMembers(IqFields(), b);
  }

  lemma IqFaultOf(b: seq<byte>, h: IqHeader)
    requires IqBytes(h, b)
    ensures h.Validate() == if IqFault(b) == None then Ok(()) else Err(IqFault(b).value)
  {
    IqConstants(b);
  }

  /** The bytes of the constants. */
  lemma IqConstants(b: seq<byte>)
    requires |b| >= 64
    ensures FromLe(b[0..4]) == IQ_MAGIC <==> b[0..4] == [0x53, 0x44, 0x49, 0x51]
    ensures FromLe(b[4..6]) == 1 <==> b[4..6] == [1, 0]
    ensures FromLe(b[6..8]) == 64 <==> b[6..8] == [64, 0]
    ensures FromLe(b[8..10]) == 1 <==> b[8..10] == [1, 0]
    ensures FromLe(b[40..42]) == 1 <==> b[40..42] == [1, 0]
  {
    IqMagic(b[0..4]);
    TwoBytesAre(b[4..6], 1);
    TwoBytesAre(b[6..8], 64);
    TwoBytesAre(b[8..10], 1);
    TwoBytesAre(b[40..42], 1);
  }

  /** Bytes unpack exactly when nothing is wrong with them, and then each member is read from its own bytes. */
  lemma IqLayout(b: seq<byte>)
    ensures UnpackIq(b).Ok? <==> IqFault(b) == None
    ensures UnpackIq(b).Err? ==> IqFault(b) == Some(UnpackIq(b).error)
    ensures UnpackIq(b).Ok? ==> IqBytes(UnpackIq(b).value, b)
  {
    if |b| >= 64 {
      IqSize();
      var h := IqFromValues(UnpackStruct(IqFields(), b));
      IqUnpacked(b, h);
      IqFaultOf(b, h);
    }
  }

  /** The constants of the format, and each other member within its width. */
  predicate IqPackable(h: IqHeader) {
    && h.magic == IQ_MAGIC && h.version == 1 && h.headerLen == 64
    && h.frameType == 1 && 0 <= h.streamId < 0x1_0000 && 0 <= h.seqNo < WORD
    && 0 <= h.adcTimestamp < STAMP && 0 <= h.frequencyHz < STAMP && 0 <= h.iqSampleRateHz < WORD
    && 0 <= h.bandwidthHz < WORD && h.sampleFormat == 1 && 0 <= h.sampleCount < 0x1_0000
    && 0 <= h.flags < 0x1_0000 && -0x8000 <= h.gainDbQ8 < 0x8000 && 0 <= h.decimation < WORD
    && h.payloadBytes == 4 * h.sampleCount && 0 <= h.reserved0 < STAMP
  }

  predicate IqRanges(vs: seq<int>)
    requires |vs| == 17
  {
    && 0 <= vs[0] < WORD && 0 <= vs[1] < 0x1_0000 && 0 <= vs[2] < 0x1_0000 && 0 <= vs[3] < 0x1_0000
    && 0 <= vs[4] < 0x1_0000 && 0 <= vs[5] < WORD && 0 <= vs[6] < STAMP && 0 <= vs[7] < STAMP
    && 0 <= vs[8] < WORD && 0 <= vs[9] < WORD && 0 <= vs[10] < 0x1_0000 && 0 <= vs[11] < 0x1_0000
    && 0 <= vs[12] < 0x1_0000 && -0x8000 <= vs[13] < 0x8000 && 0 <= vs[14] < WORD && 0 <= vs[15] < WORD
    && 0 <= vs[16] < STAMP
  }

  lemma IqFit(fs: seq<Field>, vs: seq<int>)
    requires fs == IqFields() && |vs| == 17
    ensures AllFit(fs, vs) <==> IqRanges(vs)
  {
    forall i | 0 <= i < 17
      ensures Fits(fs[i], vs[i]) <==> InRange(IqField(i), vs[i])
    {
      FitIff(fs[i], vs[i]);
    }
    if AllFit(fs, vs) {
      assert forall i :: 0 <= i < 17 ==> InRange(IqField(i), vs[i]);
    }
  }

  lemma IqRangesIff(h: IqHeader, vs: seq<int>)
    requires vs == h.Values() && h.Validate().Ok?
    ensures IqRanges(vs) <==> IqPackable(h)
  {
  }

  lemma IqPacksIff(h: IqHeader)
    ensures PackIq(h).Ok? <==> IqPackable(h)
  {
    if h.Validate().Ok? {
      IqFit(IqFields(), h.Values());
      IqRangesIff(h, h.Values());
    }
  }

  /** A header that packs fills 64 bytes, each member in its own. */
  lemma PackedIqLayout(h: IqHeader)
    requires PackIq(h).Ok?
    ensures var b := PackIq(h).value; |b| == 64 && IqBytes(h, b) && IqFault(b) == None
  {
    var b := PackIq(h).value;
    IqRoundTrip(h, []);
    assert b + [] == b;
    IqLayout(b);
  }
}
