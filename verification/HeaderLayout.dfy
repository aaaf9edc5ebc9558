/**
 The sixteen header words the packetizer emits, laid out little-endian, are the packed IQ header.
 */
module HeaderLayout {
  import opened LittleEndian
  import opened Modular
  import opened Packets
  import P = IqPacketizer

  /** Words as they appear in memory: byte lane 0 first. */
  function BytesOf(ws: seq<nat>): (b: seq<byte>)
    ensures |b| == 4 * |ws|
  {
    if ws == [] then [] else Le(4, ws[0]) + BytesOf(ws[1..])
  }

  function HeaderWords(k: P.Params, h: P.HeaderInfo): (ws: seq<nat>)
    ensures |ws| == 16
  {
    seq(16, i requires 0 <= i < 16 => P.HeaderWord(k, h, i))
  }

  /** The register widths of the fields that a header carries. */
  predicate WithinWidths(k: P.Params, h: P.HeaderInfo) {
    && P.ValidParams(k)
    && h.seqNo < WORD && h.timestamp < STAMP
    && h.settings.frequencyHz < STAMP && h.settings.sampleRateHz < WORD && h.settings.bandwidthHz < WORD
    && h.settings.decimation < WORD && h.settings.flags < 0x1_0000
    && -0x8000 <= h.settings.gainDbQ8 < 0x8000
  }

  /** The header a receiver should see. */
  function Announced(k: P.Params, h: P.HeaderInfo): IqHeader {
    IqHeader(IQ_MAGIC, VERSION, IQ_HEADER_SIZE, FRAME_IQ, k.streamId, h.seqNo, h.timestamp,
             h.settings.frequencyHz, h.settings.sampleRateHz, h.settings.bandwidthHz, SC16_LE, k.frameSamples,
             P.PacketFlags(h), h.settings.gainDbQ8, h.settings.decimation, k.frameSamples * 4, 0)
  }

  /** From field `i` and word `j` on, the packed fields are the bytes of the words. */
  ghost predicate SameTail(fs: seq<Field>, vs: seq<int>, ws: seq<nat>, i: nat, j: nat) {
    && AllFit(fs, vs) && i <= |fs| && j <= |ws|
    && AllFit(fs[i..], vs[i..])
    && PackStruct(fs[i..], vs[i..]) == BytesOf(ws[j..])
  }

  lemma PackFrom(fs: seq<Field>, vs: seq<int>, i: nat)
    requires AllFit(fs, vs) && i < |fs|
    ensures AllFit(fs[i..], vs[i..]) && AllFit(fs[i + 1..], vs[i + 1..])
    ensures PackStruct(fs[i..], vs[i..]) == EncodeField(fs[i], vs[i]) + PackStruct(fs[i + 1..], vs[i + 1..])
  {
    assert fs[i..][1..] == fs[i + 1..] && vs[i..][1..] == vs[i + 1..];
  }

  lemma BytesFrom(ws: seq<nat>, j: nat)
    requires j < |ws|
    ensures BytesOf(ws[j..]) == Le(4, ws[j]) + BytesOf(ws[j + 1..])
  {
    assert ws[j..][1..] == ws[j + 1..];
  }

  /** One 32-bit field is one word. */
  lemma WordField(fs: seq<Field>, vs: seq<int>, ws: seq<nat>, i: nat, j: nat)
    requires SameTail(fs, vs, ws, i + 1, j + 1) && fs[i] == U(4) && vs[i] == ws[j]
    ensures SameTail(fs, vs, ws, i, j)
  {
    PackFrom(fs, vs, i);
    BytesFrom(ws, j);
  }

  lemma HalfValue(g: Field, v: int)
    requires g.width == 2 && Fits(g, v)
    ensures (if v < 0 then v + Pow256(2) else v) == v % 0x1_0000
  {
    Powers();
  }

  lemma HalvesOfWord(f: Field, g: Field, low: int, high: int)
    requires f == U(2) && g.width == 2 && Fits(f, low) && Fits(g, high)
    ensures EncodeField(f, low) + EncodeField(g, high) == Le(4, low + 0x1_0000 * (high % 0x1_0000))
  {
    Powers();
    HalfValue(g, high);
    LeJoin(g.width, g.width, low, high % 0x1_0000);
  }

  lemma Regroup(a: seq<byte>, b: seq<byte>, c: seq<byte>)
    ensures a + (b + c) == (a + b) + c
  {
  }

  /** Two 16-bit fields share a word, the first in the low half. */
  lemma HalfFields(fs: seq<Field>, vs: seq<int>, ws: seq<nat>, i: nat, j: nat)
    requires SameTail(fs, vs, ws, i + 2, j + 1) && fs[i] == U(2) && fs[i + 1].width == 2
    requires ws[j] == vs[i] + 0x1_0000 * (vs[i + 1] % 0x1_0000)
    ensures SameTail(fs, vs, ws, i, j)
  {
    PackFrom(fs, vs, i);
    PackFrom(fs, vs, i + 1);
    BytesFrom(ws, j);
    var low, high := EncodeField(fs[i], vs[i]), EncodeField(fs[i + 1], vs[i + 1]);
    assert low + high == Le(4, ws[j]) by {
      HalvesOfWord(fs[i], fs[i + 1], vs[i], vs[i + 1]);
    }
    Regroup(low, high, BytesOf(ws[j + 1..]));
  }

  lemma HalvesOfWide(f: Field, v: int, low: nat, high: nat)
    requires f == U(8) && low < WORD && v == low + WORD * high && Fits(f, v)
    ensures EncodeField(f, v) == Le(4, low) + Le(4, high)
  {
    Powers();
    LeJoin(f.width / 2, f.width / 2, low, high);
  }

  /** A 64-bit field is two words, the low one first. */
  lemma WideField(fs: seq<Field>, vs: seq<int>, ws: seq<nat>, i: nat, j: nat)
    requires SameTail(fs, vs, ws, i + 1, j + 2) && fs[i] == U(8)
    requires ws[j] < WORD && vs[i] == ws[j] + WORD * ws[j + 1]
    ensures SameTail(fs, vs, ws, i, j)
  {
    PackFrom(fs, vs, i);
    BytesFrom(ws, j);
    BytesFrom(ws, j + 1);
    assert EncodeField(fs[i], vs[i]) == Le(4, ws[j]) + Le(4, ws[j + 1]) by {
      HalvesOfWide(fs[i], vs[i], ws[j], ws[j + 1]);
    }
    Regroup(Le(4, ws[j]), Le(4, ws[j + 1]), BytesOf(ws[j + 2..]));
  }

  lemma AnnouncedFits(k: P.Params, h: P.HeaderInfo)
    requires WithinWidths(k, h)
    ensures Announced(k, h).Validate().Ok? && AllFit(IqFields(), Announced(k, h).Values())
  {
    Powers();
  }

  /** Each word holds its field or fields. */
  predicate WordsHold(vs: seq<int>, ws: seq<nat>) {
    && |vs| == 17 && |ws| == 16
    && vs[0] == ws[0]
    && ws[1] == vs[1] + 0x1_0000 * (vs[2] % 0x1_0000)
    && ws[2] == vs[3] + 0x1_0000 * (vs[4] % 0x1_0000)
    && vs[5] == ws[3]
    && ws[4] < WORD && vs[6] == ws[4] + WORD * ws[5]
    && ws[6] < WORD && vs[7] == ws[6] + WORD * ws[7]
    && vs[8] == ws[8] && vs[9] == ws[9]
    && ws[10] == vs[10] + 0x1_0000 * (vs[11] % 0x1_0000)
    && ws[11] == vs[12] + 0x1_0000 * (vs[13] % 0x1_0000)
    && vs[14] == ws[12] && vs[15] == ws[13]
    && ws[14] < WORD && vs[16] == ws[14] + WORD * ws[15]
  }

  lemma HeaderWordsHold(k: P.Params, h: P.HeaderInfo)
    requires WithinWidths(k, h)
    ensures WordsHold(Announced(k, h).Values(), HeaderWords(k, h))
  {
    assert 64 % 0x1_0000 == 64;
  }

  /** The member widths of the IQ header. */
  predicate IqShape(fs: seq<Field>) {
    && |fs| == 17
    && fs[0] == U(4) && fs[1] == U(2) && fs[2] == U(2) && fs[3] == U(2) && fs[4] == U(2) && fs[5] == U(4)
    && fs[6] == U(8) && fs[7] == U(8) && fs[8] == U(4) && fs[9] == U(4) && fs[10] == U(2) && fs[11] == U(2)
    && fs[12] == U(2) && fs[13] == S(2) && fs[14] == U(4) && fs[15] == U(4) && fs[16] == U(8)
  }

  lemma LastWordsPacked(fs: seq<Field>, vs: seq<int>, ws: seq<nat>)
    requires IqShape(fs) && WordsHold(vs, ws) && AllFit(fs, vs)
    ensures SameTail(fs, vs, ws, 10, 10)
  {
    assert fs[17..] == [] && vs[17..] == [] && ws[16..] == [];
    assert SameTail(fs, vs, ws, 17, 16);
    WideField(fs, vs, ws, 16, 14);
    WordField(fs, vs, ws, 15, 13);
    WordField(fs, vs, ws, 14, 12);
    HalfFields(fs, vs, ws, 12, 11);
    HalfFields(fs, vs, ws, 10, 10);
  }

  /** Words that hold the fields are, in memory, the packed structure. */
  lemma WordsArePacked(fs: seq<Field>, vs: seq<int>, ws: seq<nat>)
    requires IqShape(fs) && WordsHold(vs, ws) && AllFit(fs, vs)
    ensures PackStruct(fs, vs) == BytesOf(ws)
  {
    LastWordsPacked(fs, vs, ws);
    WordField(fs, vs, ws, 9, 9);
    WordField(fs, vs, ws, 8, 8);
    WideField(fs, vs, ws, 7, 6);
    WideField(fs, vs, ws, 6, 4);
    WordField(fs, vs, ws, 5, 3);
    HalfFields(fs, vs, ws, 3, 2);
    HalfFields(fs, vs, ws, 1, 1);
    WordField(fs, vs, ws, 0, 0);
    assert fs[0..] == fs && vs[0..] == vs && ws[0..] == ws;
  }

  /** The announced header packs to the bytes of the emitted words. */
  lemma EmittedHeaderIsPacked(k: P.Params, h: P.HeaderInfo)
    requires WithinWidths(k, h)
    ensures PackIq(Announced(k, h)) == Ok(BytesOf(HeaderWords(k, h)))
  {
    AnnouncedFits(k, h);
    HeaderWordsHold(k, h);
    WordsArePacked(IqFields(), Announced(k, h).Values(), HeaderWords(k, h));
  }

  /** A receiver that unpacks an emitted header gets exactly the latched fields, and the checks pass. */
  lemma EmittedHeaderUnpacks(k: P.Params, h: P.HeaderInfo, payload: seq<byte>)
    requires WithinWidths(k, h)
    ensures UnpackIq(BytesOf(HeaderWords(k, h)) + payload) == Ok(Announced(k, h))
  {
    EmittedHeaderIsPacked(k, h);
    IqRoundTrip(Announced(k, h), payload);
  }
}
