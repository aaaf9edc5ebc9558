/**
 The binary headers shared by the device and the backend: validation, packing and unpacking.
 */
module Packets {
  import opened LittleEndian

  const IQ_MAGIC := 0x51494453
  const PSD_MAGIC := 0x53504453
  const VERSION := 1
  const FRAME_IQ := 1
  const FRAME_PSD := 2
  const SC16_LE := 1
  const I16_DBFS_Q8 := 1
  const IQ_HEADER_SIZE := 64
  const PSD_HEADER_SIZE := 72

  datatype PacketError =
    | TooShort | BadMagic | BadVersion | BadHeaderLength | BadFrameType | BadSampleFormat | BadPayloadBytes
    | ValueOutOfRange  // raised by the packing itself, after validation

  datatype Result<+T> = Ok(value: T) | Err(error: PacketError)

  datatype IqHeader = IqHeader(
    magic: int, version: int, headerLen: int, frameType: int, streamId: int, seqNo: int,
    adcTimestamp: int, frequencyHz: int, iqSampleRateHz: int, bandwidthHz: int,
    sampleFormat: int, sampleCount: int, flags: int, gainDbQ8: int,
    decimation: int, payloadBytes: int, reserved0: int)
  {
    function NextTimestampDelta(): int {
      decimation * sampleCount
    }

    /** The first check that fails, in the order the checks are made. */
    function Validate(): Result<()> {
      if magic != IQ_MAGIC then Err(BadMagic)
      else if version != VERSION then Err(BadVersion)
      else if headerLen != IQ_HEADER_SIZE then Err(BadHeaderLength)
      else if frameType != FRAME_IQ then Err(BadFrameType)
      else if sampleFormat != SC16_LE then Err(BadSampleFormat)
      else if payloadBytes != sampleCount * 4 then Err(BadPayloadBytes)
      else Ok(())
    }

    function Values(): (vs: seq<int>)
      ensures |vs| == 17
    {
      [magic, version, headerLen, frameType, streamId, seqNo, adcTimestamp, frequencyHz, iqSampleRateHz, bandwidthHz,
       sampleFormat, sampleCount, flags, gainDbQ8, decimation, payloadBytes, reserved0]
    }
  }

  function IqFromValues(v: seq<int>): IqHeader
    requires |v| == 17
  {
    IqHeader(v[0], v[1], v[2], v[3], v[4], v[5], v[6], v[7], v[8], v[9], v[10], v[11], v[12], v[13], v[14], v[15],
        v[16])
  }

  /** The structure format "<IHHHHIQQIIHHHhIIQ". */
  function IqField(i: nat): Field {
    match i
    case 0 => U(4)
    case 5 => U(4)
    case 6 => U(8)
    case 7 => U(8)
    case 8 => U(4)
    case 9 => U(4)
    case 13 => S(2)
    case 14 => U(4)
    case 15 => U(4)
    case 16 => U(8)
    case _ => U(2)
  }

  function IqFields(): (fs: seq<Field>)
    ensures |fs| == 17 && forall i :: 0 <= i < 17 ==> fs[i] == IqField(i)
  {
    seq(17, i requires i >= 0 => IqField(i))
  }

  lemma IqSize()
    ensures SizeOf(IqFields()) == IQ_HEADER_SIZE
  {
    SizeOfSixteen(IqFields());
    SizeOfOne(IqFields(), 16);
  }

  lemma SizeOfOne(fs: seq<Field>, i: nat)
    requires i == |fs| - 1
    ensures SizeOf(fs[i..]) == fs[i].width
  {
  }

  lemma SizeOfFour(fs: seq<Field>, i: nat)
    requires i + 4 <= |fs|
    ensures SizeOf(fs[i..]) == fs[i].width + fs[i + 1].width + fs[i + 2].width + fs[i + 3].width + SizeOf(fs[i + 4..])
  {
    var a, b, c, d := fs[i..], fs[i + 1..], fs[i + 2..], fs[i + 3..];
    assert a[1..] == b && b[1..] == c && c[1..] == d && d[1..] == fs[i + 4..];
    assert SizeOf(a) == fs[i].width + SizeOf(b) && SizeOf(b) == fs[i + 1].width + SizeOf(c);
  }

  lemma SizeOfSixteen(fs: seq<Field>)
    requires |fs| >= 16
    ensures SizeOf(fs) ==
      fs[0].width + fs[1].width + fs[2].width + fs[3].width + fs[4].width + fs[5].width + fs[6].width + fs[7].width +
      fs[8].width + fs[9].width + fs[10].width + fs[11].width + fs[12].width + fs[13].width + fs[14].width +
      fs[15].width + SizeOf(fs[16..])
  {
    assert fs[0..] == fs;
    SizeOfFour(fs, 0);
    SizeOfFour(fs, 4);
    SizeOfFour(fs, 8);
    SizeOfFour(fs, 12);
  }

  function PackIq(h: IqHeader): Result<seq<byte>> {
    var checked := h.Validate();
    if checked.Err? then Err(checked.error)
    else if !AllFit(IqFields(), h.Values()) then Err(ValueOutOfRange)
    else Ok(PackStruct(IqFields(), h.Values()))
  }

  function UnpackIq(data: seq<byte>): Result<IqHeader> {
    if |data| < IQ_HEADER_SIZE then Err(TooShort)
    else
      IqSize();
      var h := IqFromValues(UnpackStruct(IqFields(), data));
      var checked := h.Validate();
      if checked.Err? then Err(checked.error) else Ok(h)
  }

  datatype PsdHeader = PsdHeader(
    magic: int, version: int, headerLen: int, frameType: int, psdId: int, frameSeq: int,
    adcTimestamp: int, startFrequencyHz: int, binSpacingMillihz: int, fftSize: int, totalBins: int,
    segmentIndex: int, segmentCount: int, binStart: int, binCount: int, sampleFormat: int, flags: int,
    averagingCount: int, payloadBytes: int, stopFrequencyHz: int)
  {
    function Validate(): Result<()> {
      if magic != PSD_MAGIC then Err(BadMagic)
      else if version != VERSION then Err(BadVersion)
      else if headerLen != PSD_HEADER_SIZE then Err(BadHeaderLength)
      else if frameType != FRAME_PSD then Err(BadFrameType)
      else if sampleFormat != I16_DBFS_Q8 then Err(BadSampleFormat)
      else if payloadBytes != binCount * 2 then Err(BadPayloadBytes)
      else Ok(())
    }

    function Values(): (vs: seq<int>)
      ensures |vs| == 20
    {
      [magic, version, headerLen, frameType, psdId, frameSeq, adcTimestamp, startFrequencyHz, binSpacingMillihz,
          fftSize,
       totalBins, segmentIndex, segmentCount, binStart, binCount, sampleFormat, flags, averagingCount, payloadBytes,
       stopFrequencyHz]
    }
  }

  function PsdFromValues(v: seq<int>): PsdHeader
    requires |v| == 20
  {
    PsdHeader(v[0], v[1], v[2], v[3], v[4], v[5], v[6], v[7], v[8], v[9], v[10], v[11], v[12], v[13], v[14], v[15],
              v[16], v[17], v[18], v[19])
  }

  /** The structure format "<IHHHHIQQQIHHHHHHHHIQ". */
  function PsdField(i: nat): Field {
    match i
    case 0 => U(4)
    case 5 => U(4)
    case 6 => U(8)
    case 7 => U(8)
    case 8 => U(8)
    case 9 => U(4)
    case 18 => U(4)
    case 19 => U(8)
    case _ => U(2)
  }

  function PsdFields(): (fs: seq<Field>)
    ensures |fs| == 20 && forall i :: 0 <= i < 20 ==> fs[i] == PsdField(i)
  {
    seq(20, i requires i >= 0 => PsdField(i))
  }

  lemma PsdSize()
    ensures SizeOf(PsdFields()) == PSD_HEADER_SIZE
  {
    SizeOfSixteen(PsdFields());
    SizeOfFour(PsdFields(), 16);
  }

  function PackPsd(h: PsdHeader): Result<seq<byte>> {
    var checked := h.Validate();
    if checked.Err? then Err(checked.error)
    else if !AllFit(PsdFields(), h.Values()) then Err(ValueOutOfRange)
    else Ok(PackStruct(PsdFields(), h.Values()))
  }

  function UnpackPsd(data: seq<byte>): Result<PsdHeader> {
    if |data| < PSD_HEADER_SIZE then Err(TooShort)
    else
      PsdSize();
      var h := PsdFromValues(UnpackStruct(PsdFields(), data));
      var checked := h.Validate();
      if checked.Err? then Err(checked.error) else Ok(h)
  }

  // ---- round trips --------------------------------------------------------------------------------

  /** An IQ header that packs is 64 bytes long and unpacks to itself, whatever payload follows. */
  lemma IqRoundTrip(h: IqHeader, payload: seq<byte>)
    requires PackIq(h).Ok?
    ensures |PackIq(h).value| == IQ_HEADER_SIZE
    ensures UnpackIq(PackIq(h).value + payload) == Ok(h)
  {
    IqSize();
    UnpackPack(IqFields(), h.Values(), payload);
    assert IqFromValues(h.Values()) == h;
  }

  lemma IqValuesInverse(vs: seq<int>)
    requires |vs| == 17
    ensures IqFromValues(vs).Values() == vs
  {
  }

  /** Bytes that unpack are the packed form of what they unpack to. */
  lemma IqReverse(data: seq<byte>)
    requires UnpackIq(data).Ok?
    ensures PackIq(UnpackIq(data).value) == Ok(data[..IQ_HEADER_SIZE])
  {
    IqSize();
    PackUnpack(IqFields(), data);
    IqValuesInverse(UnpackStruct(IqFields(), data));
  }

  lemma PsdRoundTrip(h: PsdHeader, payload: seq<byte>)
    requires PackPsd(h).Ok?
    ensures |PackPsd(h).value| == PSD_HEADER_SIZE
    ensures UnpackPsd(PackPsd(h).value + payload) == Ok(h)
  {
    PsdSize();
    UnpackPack(PsdFields(), h.Values(), payload);
    assert PsdFromValues(h.Values()) == h;
  }

  lemma PsdValuesInverse(vs: seq<int>)
    requires |vs| == 20
    ensures PsdFromValues(vs).Values() == vs
  {
  }

  lemma PsdReverse(data: seq<byte>)
    requires UnpackPsd(data).Ok?
    ensures PackPsd(UnpackPsd(data).value) == Ok(data[..PSD_HEADER_SIZE])
  {
    PsdSize();
    PackUnpack(PsdFields(), data);
    PsdValuesInverse(UnpackStruct(PsdFields(), data));
  }
}
