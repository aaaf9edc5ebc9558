/**
 The packetizer's words cut into datagrams at TLAST, over every run, and what a receiver unpacks from them. A packet
 that was cut short has no TLAST, so its words go out in front of the next whole packet.
 */
module Datagrams {
  import opened IqPacketizer
  import opened LittleEndian
  import opened Modular
  import opened Packets
  import opened PacketPieces
  import opened Sequences
  import H = HeaderLayout

  // ---- cutting -------------------------------------------------------------------------------------------------

  /** Complete datagrams, and the words since the last of them. */
  datatype Cutting = Cutting(frames: seq<seq<Beat>>, rest: seq<Beat>)

  function CutAtLast(beats: seq<Beat>): Cutting {
    if beats == [] then Cutting([], [])
    else
      var c, b := CutAtLast(beats[..|beats| - 1]), beats[|beats| - 1];
      if b.last then Cutting(c.frames + [c.rest + [b]], []) else Cutting(c.frames, c.rest + [b])
  }

  lemma CutExtend(beats: seq<Beat>, b: Beat)
    ensures var c := CutAtLast(beats);
            CutAtLast(beats + [b]) ==
            if b.last then Cutting(c.frames + [c.rest + [b]], []) else Cutting(c.frames, c.rest + [b])
  {
    assert (beats + [b])[..|beats|] == beats;
  }

  predicate NoLast(beats: seq<Beat>) {
    forall i :: 0 <= i < |beats| ==> !beats[i].last
  }

  lemma {:induction false} CutWithoutLast(a: seq<Beat>, b: seq<Beat>)
    requires NoLast(b)
    ensures CutAtLast(a + b) == Cutting(CutAtLast(a).frames, CutAtLast(a).rest + b)
  {
    if b == [] {
      assert a + b == a && CutAtLast(a).rest + b == CutAtLast(a).rest;
    } else {
      var init, last := b[..|b| - 1], b[|b| - 1];
      assert b == init + [last];
      CutWithoutLast(a, init);
      CutExtend(a + init, last);
      Assoc(a, init, [last]);
      Assoc(CutAtLast(a).rest, init, [last]);
    }
  }

  /** The words of a packet before its last, and that one. */
  lemma PacketSplits(k: Params, q: Packet) returns (body: seq<Beat>, last: Beat)
    requires ValidParams(k) && |q.samples| == k.frameSamples
    ensures PacketBeats(k, q) == body + [last] && NoLast(body) && last.last
  {
    var beats := PacketBeats(k, q);
    body, last := beats[..|beats| - 1], beats[|beats| - 1];
  }

  /** A whole packet ends one datagram, which starts with the words that were left over. */
  lemma CutPacket(k: Params, a: seq<Beat>, q: Packet)
    requires ValidParams(k) && |q.samples| == k.frameSamples
    ensures CutAtLast(a + PacketBeats(k, q)) ==
            Cutting(CutAtLast(a).frames + [CutAtLast(a).rest + PacketBeats(k, q)], [])
  {
    var body, last := PacketSplits(k, q);
    CutWithoutLast(a, body);
    CutExtend(a + body, last);
    Assoc(a, body, [last]);
    Assoc(CutAtLast(a).rest, body, [last]);
  }

  lemma CutPiece(k: Params, a: seq<Beat>, c: Piece)
    requires ValidParams(k) && WellCut(k, c) && c.Cut?
    ensures CutAtLast(a + PieceBeats(k, c)) == Cutting(CutAtLast(a).frames, CutAtLast(a).rest + PieceBeats(k, c))
  {
    forall i | 0 <= i < |PieceBeats(k, c)|
      ensures !PieceBeats(k, c)[i].last
    {
      LastMarksWhole(k, c, i);
    }
    CutWithoutLast(a, PieceBeats(k, c));
  }

  // ---- datagrams of pieces ---------------------------------------------------------------------------------------

  /** A datagram for each whole packet, with the words of the cut packets before it in front. */
  function Grouped(k: Params, start: Cutting, cs: seq<Piece>): Cutting {
    if cs == [] then start
    else
      var g := Grouped(k, start, cs[..|cs| - 1]);
      match cs[|cs| - 1]
      case Whole(q) => Cutting(g.frames + [g.rest + PacketBeats(k, q)], [])
      case Cut(_, _, _, _) => Cutting(g.frames, g.rest + PieceBeats(k, cs[|cs| - 1]))
  }

  lemma {:induction false} CutOfPieces(k: Params, a: seq<Beat>, cs: seq<Piece>)
    requires ValidParams(k) && AllWellCut(k, cs)
    ensures CutAtLast(a + Beats(k, cs)) == Grouped(k, CutAtLast(a), cs)
  {
    if cs == [] {
      assert a + Beats(k, cs) == a;
    } else {
      var init, c := cs[..|cs| - 1], cs[|cs| - 1];
      CutOfPieces(k, a, init);
      Assoc(a, Beats(k, init), PieceBeats(k, c));
      if c.Whole? {
        CutPacket(k, a + Beats(k, init), c.packet);
      } else {
        CutPiece(k, a + Beats(k, init), c);
      }
    }
  }

  predicate AllCut(cs: seq<Piece>) {
    forall n :: 0 <= n < |cs| ==> cs[n].Cut?
  }

  /** From `i` to `j` everything was cut, since the start or since a whole packet. */
  predicate CutSince(cs: seq<Piece>, i: nat, j: nat) {
    i <= j <= |cs| && AllCut(cs[i..j]) && (i > 0 ==> cs[i - 1].Whole?)
  }

  lemma CutSinceMore(init: seq<Piece>, c: Piece, i: nat)
    requires CutSince(init, i, |init|) && c.Cut?
    ensures CutSince(init + [c], i, |init| + 1) && (init + [c])[i..] == init[i..] + [c]
  {
    assert init[i..|init|] == init[i..];
    assert (init + [c])[i..|init| + 1] == init[i..] + [c];
  }

  /** What came before the first datagram goes in front of it. */
  function Lead(start: Cutting, i: nat): seq<Beat> {
    if i == 0 then start.rest else []
  }

  lemma GroupedStep(k: Params, start: Cutting, init: seq<Piece>, c: Piece)
    ensures var g := Grouped(k, start, init);
            Grouped(k, start, init + [c]) ==
            if c.Whole? then Cutting(g.frames + [g.rest + PacketBeats(k, c.packet)], [])
            else Cutting(g.frames, g.rest + PieceBeats(k, c))
  {
    assert (init + [c])[..|init|] == init;
  }

  /** What is left over: the cut packets since the last whole one. */
  lemma {:induction false} RestIsCuts(k: Params, start: Cutting, cs: seq<Piece>) returns (i: nat)
    ensures CutSince(cs, i, |cs|) && Grouped(k, start, cs).rest == Lead(start, i) + Beats(k, cs[i..])
  {
    if cs == [] {
      i := 0;
    } else {
      var init, c := cs[..|cs| - 1], cs[|cs| - 1];
      assert cs == init + [c];
      GroupedStep(k, start, init, c);
      if c.Whole? {
        i := |cs|;
        assert cs[i..] == [] && [] + Beats(k, []) == [];
      } else {
        i := RestIsCuts(k, start, init);
        CutSinceMore(init, c, i);
        PieceAppend(k, init[i..], c);
        Assoc(Lead(start, i), Beats(k, init[i..]), PieceBeats(k, c));
      }
    }
  }

  lemma CutSincePrefix(init: seq<Piece>, c: Piece, i: nat, j: nat)
    requires CutSince(init, i, j)
    ensures CutSince(init + [c], i, j) && (init + [c])[i..j] == init[i..j] && (init + [c])[..j] == init[..j]
  {
    assert (init + [c])[i..j] == init[i..j];
  }

  /** Datagram `n`: what was cut since the whole packet before it, and whole packet number `n`. */
  ghost predicate IsDatagramOf(k: Params, start: Cutting, cs: seq<Piece>, i: nat, j: nat, n: nat, datagram: seq<Beat>) {
    && CutSince(cs, i, j) && j < |cs| && cs[j].Whole? && WholeCount(cs[..j]) == n - |start.frames|
    && datagram == Lead(start, i) + Beats(k, cs[i..j]) + PacketBeats(k, cs[j].packet)
  }

  lemma EarlierDatagram(k: Params, start: Cutting, init: seq<Piece>, c: Piece, i: nat, j: nat, n: nat,
                        datagram: seq<Beat>)
    requires IsDatagramOf(k, start, init, i, j, n, datagram)
    ensures IsDatagramOf(k, start, init + [c], i, j, n, datagram)
  {
    CutSincePrefix(init, c, i, j);
  }

  lemma NewDatagram(k: Params, start: Cutting, init: seq<Piece>, c: Piece, i: nat, datagram: seq<Beat>)
    requires CutSince(init, i, |init|) && c.Whole?
    requires datagram == Lead(start, i) + Beats(k, init[i..]) + PacketBeats(k, c.packet)
    ensures IsDatagramOf(k, start, init + [c], i, |init|, |start.frames| + WholeCount(init), datagram)
  {
    CutSincePrefix(init, c, i, |init|);
    assert init[i..|init|] == init[i..] && init[..|init|] == init;
  }

  lemma {:induction false} DatagramOfPieces(k: Params, start: Cutting, cs: seq<Piece>, n: nat) returns (i: nat, j: nat)
    requires |start.frames| <= n < |Grouped(k, start, cs).frames|
    ensures IsDatagramOf(k, start, cs, i, j, n, Grouped(k, start, cs).frames[n])
  {
    var init, c := cs[..|cs| - 1], cs[|cs| - 1];
    assert cs == init + [c];
    GroupedCount(k, start, init);
    GroupedStep(k, start, init, c);
    if n == |Grouped(k, start, init).frames| {
      i := RestIsCuts(k, start, init);
      j := |init|;
      NewDatagram(k, start, init, c, i, Grouped(k, start, cs).frames[n]);
    } else {
      i, j := DatagramOfPieces(k, start, init, n);
      EarlierDatagram(k, start, init, c, i, j, n, Grouped(k, start, init).frames[n]);
    }
  }

  lemma {:induction false} GroupedCount(k: Params, start: Cutting, cs: seq<Piece>)
    ensures |Grouped(k, start, cs).frames| == |start.frames| + WholeCount(cs)
  {
    if cs != [] {
      GroupedCount(k, start, cs[..|cs| - 1]);
    }
  }

  /** The frames that are complete but for a last word that still waits. */
  function LeftFrames(frames: seq<seq<Beat>>, p: Packetizer): seq<seq<Beat>> {
    if p.tvalid && p.out.last && frames != [] then frames[..|frames| - 1] else frames
  }

  lemma LeftPrefix(frames: seq<seq<Beat>>, p: Packetizer, n: nat)
    requires n < |LeftFrames(frames, p)|
    ensures n < |frames| && LeftFrames(frames, p)[n] == frames[n]
  {
  }

  lemma CutAccepted(accepted: seq<Beat>, p: Packetizer)
    ensures CutAtLast(accepted).frames == LeftFrames(CutAtLast(accepted + Pending(p)).frames, p)
  {
    if p.tvalid {
      CutExtend(accepted, p.out);
    } else {
      assert accepted + Pending(p) == accepted;
    }
  }

  // ---- datagrams as bytes -------------------------------------------------------------------------------------

  function Words(beats: seq<Beat>): (ws: seq<nat>)
    ensures |ws| == |beats| && forall i :: 0 <= i < |ws| ==> ws[i] == beats[i].data
  {
    seq(|beats|, i requires 0 <= i < |beats| => beats[i].data)
  }

  /** The header that the receiver gets out of a datagram. */
  function HeaderIn(datagram: seq<Beat>): Result<IqHeader> {
    UnpackIq(H.BytesOf(Words(datagram)))
  }

  lemma {:induction false} BytesJoin(a: seq<nat>, b: seq<nat>)
    ensures H.BytesOf(a + b) == H.BytesOf(a) + H.BytesOf(b)
  {
    if a == [] {
      assert a + b == b;
    } else {
      assert (a + b)[1..] == a[1..] + b;
      BytesJoin(a[1..], b);
    }
  }

  lemma WordOfBytes(v: nat, w: nat)
    requires v < WORD && w < WORD && Le(4, v) == Le(4, w)
    ensures v == w
  {
    Powers();
    FromLeLe(4, v);
    FromLeLe(4, w);
  }

  lemma {:induction false} BytesInjective(a: seq<nat>, b: seq<nat>)
    requires |a| == |b| && WordsFit(a) && WordsFit(b) && H.BytesOf(a) == H.BytesOf(b)
    ensures a == b
  {
    if a != [] {
      var x, y := H.BytesOf(a), H.BytesOf(b);
      assert x[..4] == Le(4, a[0]) && y[..4] == Le(4, b[0]);
      assert x[4..] == H.BytesOf(a[1..]) && y[4..] == H.BytesOf(b[1..]);
      WordOfBytes(a[0], b[0]);
      BytesInjective(a[1..], b[1..]);
    }
  }

  lemma HeaderWordFits(k: Params, h: HeaderInfo, i: nat)
    requires H.WithinWidths(k, h) && i < 16
    ensures HeaderWord(k, h, i) < WORD
  {
  }

  lemma HeaderWordsFit(k: Params, h: HeaderInfo)
    requires H.WithinWidths(k, h)
    ensures WordsFit(H.HeaderWords(k, h))
  {
    forall i | 0 <= i < 16
      ensures H.HeaderWords(k, h)[i] < WORD
    {
      HeaderWordFits(k, h, i);
    }
  }

  lemma FirstBytes(ws: seq<nat>)
    requires |ws| >= 16
    ensures H.BytesOf(ws) == H.BytesOf(ws[..16]) + H.BytesOf(ws[16..])
    ensures H.BytesOf(ws)[..IQ_HEADER_SIZE] == H.BytesOf(ws[..16])
  {
    assert ws == ws[..16] + ws[16..];
    BytesJoin(ws[..16], ws[16..]);
  }

  lemma UnpackedWords(k: Params, ws: seq<nat>, h: HeaderInfo)
    requires H.WithinWidths(k, h) && |ws| >= 16 && WordsFit(ws) && UnpackIq(H.BytesOf(ws)) == Ok(H.Announced(k, h))
    ensures ws[..16] == H.HeaderWords(k, h)
  {
    FirstBytes(ws);
    IqReverse(H.BytesOf(ws));
    H.EmittedHeaderIsPacked(k, h);
    HeaderWordsFit(k, h);
    BytesInjective(ws[..16], H.HeaderWords(k, h));
  }

  /** Words unpack to a header exactly when the first sixteen of them are its words. */
  lemma UnpacksIffWords(k: Params, ws: seq<nat>, h: HeaderInfo)
    requires H.WithinWidths(k, h) && |ws| >= 16 && WordsFit(ws)
    ensures UnpackIq(H.BytesOf(ws)) == Ok(H.Announced(k, h)) <==> ws[..16] == H.HeaderWords(k, h)
  {
    if ws[..16] == H.HeaderWords(k, h) {
      FirstBytes(ws);
      H.EmittedHeaderUnpacks(k, h, H.BytesOf(ws[16..]));
    } else if UnpackIq(H.BytesOf(ws)) == Ok(H.Announced(k, h)) {
      UnpackedWords(k, ws, h);
    }
  }

  // ---- what a cut packet does to the datagram after it ---------------------------------------------------------

  predicate CutsFit(k: Params, cuts: seq<Piece>) {
    AllCut(cuts) && AllWellCut(k, cuts) && PiecesFit(k, cuts)
  }

  lemma PieceWordsFit(k: Params, c: Piece)
    requires WellCut(k, c) && PieceFits(k, c)
    ensures WordsFit(Words(PieceBeats(k, c)))
  {
    var h, n := if c.Whole? then c.packet.header else c.header, if c.Whole? then HEADER_WORDS else c.headerWords;
    forall i | 0 <= i < |PieceBeats(k, c)|
      ensures Words(PieceBeats(k, c))[i] < WORD
    {
      if i < n {
        HeaderWordFits(k, h, i);
      }
    }
  }

  lemma WordsJoin(a: seq<Beat>, b: seq<Beat>)
    ensures Words(a + b) == Words(a) + Words(b)
    ensures WordsFit(Words(a)) && WordsFit(Words(b)) ==> WordsFit(Words(a + b))
  {
  }

  lemma {:induction false} CutWordsFit(k: Params, cuts: seq<Piece>)
    requires CutsFit(k, cuts)
    ensures WordsFit(Words(Beats(k, cuts)))
  {
    if cuts != [] {
      var init, c := cuts[..|cuts| - 1], cuts[|cuts| - 1];
      CutWordsFit(k, init);
      PieceWordsFit(k, c);
      WordsJoin(Beats(k, init), PieceBeats(k, c));
    }
  }

  /** The first of the cut packets that put a word out. */
  function FirstWith(cuts: seq<Piece>): (f: nat)
    requires AllCut(cuts)
    ensures f <= |cuts| && (f < |cuts| ==> cuts[f].headerWords > 0)
    ensures forall n :: 0 <= n < f ==> cuts[n].headerWords == 0
  {
    if cuts == [] then 0
    else
      var f := FirstWith(cuts[..|cuts| - 1]);
      if f < |cuts| - 1 || cuts[|cuts| - 1].headerWords > 0 then f else f + 1
  }

  lemma {:induction false} BeatsConcat(k: Params, a: seq<Piece>, b: seq<Piece>)
    ensures Beats(k, a + b) == Beats(k, a) + Beats(k, b)
  {
    if b == [] {
      assert a + b == a && Beats(k, a) + [] == Beats(k, a);
    } else {
      assert (a + b)[..|a + b| - 1] == a + b[..|b| - 1];
      BeatsConcat(k, a, b[..|b| - 1]);
      Assoc(Beats(k, a), Beats(k, b[..|b| - 1]), PieceBeats(k, b[|b| - 1]));
    }
  }

  lemma {:induction false} NoWordsYet(k: Params, cuts: seq<Piece>)
    requires AllCut(cuts) && AllWellCut(k, cuts) && forall n :: 0 <= n < |cuts| ==> cuts[n].headerWords == 0
    ensures Beats(k, cuts) == []
  {
    if cuts != [] {
      NoWordsYet(k, cuts[..|cuts| - 1]);
      var c := cuts[|cuts| - 1];
      assert c.samples + c.lost == [] && PieceBeats(k, c) == [];
    }
  }

  lemma BeatsSplit(k: Params, head: seq<Piece>, c: Piece, tail: seq<Piece>)
    ensures Beats(k, head + [c] + tail) == Beats(k, head) + (PieceBeats(k, c) + Beats(k, tail))
  {
    PieceAppend(k, head, c);
    BeatsConcat(k, head + [c], tail);
    Assoc(Beats(k, head), PieceBeats(k, c), Beats(k, tail));
  }

  lemma FirstWordsAt(k: Params, head: seq<Piece>, c: Piece, tail: seq<Piece>)
    requires Beats(k, head) == []
    ensures Beats(k, head + [c] + tail) == PieceBeats(k, c) + Beats(k, tail)
  {
    BeatsSplit(k, head, c, tail);
    var words := PieceBeats(k, c) + Beats(k, tail);
    assert [] + words == words;
  }

  lemma SplitAt(cs: seq<Piece>, f: nat)
    requires f < |cs|
    ensures cs == cs[..f] + [cs[f]] + cs[f + 1..]
  {
  }

  /** The words of cut packets are those of the first that put any out, and then those of the others. */
  lemma FirstWordsOf(k: Params, cuts: seq<Piece>, f: nat)
    requires AllCut(cuts) && AllWellCut(k, cuts) && f == FirstWith(cuts)
    ensures f == |cuts| ==> Beats(k, cuts) == []
    ensures f < |cuts| ==> Beats(k, cuts) == PieceBeats(k, cuts[f]) + Beats(k, cuts[f + 1..])
  {
    NoWordsYet(k, cuts[..f]);
    if f < |cuts| {
      SplitAt(cuts, f);
      FirstWordsAt(k, cuts[..f], cuts[f], cuts[f + 1..]);
    } else {
      assert cuts[..f] == cuts;
    }
  }

  /** Every packet, cut or whole, starts with the magic number. */
  lemma StartsWithMagic(k: Params, cuts: seq<Piece>, q: Packet)
    requires AllCut(cuts) && AllWellCut(k, cuts)
    ensures (Beats(k, cuts) + PacketBeats(k, q))[0].data == MAGIC
  {
    FirstWordsOf(k, cuts, FirstWith(cuts));
  }

  /** The first cut packet that put a word out stopped within its header, where this one has the magic number again. */
  predicate CutWhereMagicRecurs(k: Params, cuts: seq<Piece>, q: Packet)
    requires AllCut(cuts)
  {
    var f := FirstWith(cuts);
    f < |cuts| && cuts[f].headerWords < HEADER_WORDS && HeaderWord(k, q.header, cuts[f].headerWords) == MAGIC
  }

  /** The cut packets put no word out, or the first that did had its whole header out, and it announced the same. */
  predicate Harmless(k: Params, cuts: seq<Piece>, q: Packet)
    requires AllCut(cuts)
  {
    var f := FirstWith(cuts);
    f < |cuts| ==> cuts[f].headerWords == HEADER_WORDS && H.HeaderWords(k, cuts[f].header) == H.HeaderWords(k, q.header)
  }

  /** Two runs of words, the second of which starts with the magic number. */
  lemma MagicAfter(a: seq<Beat>, b: seq<Beat>, ws: seq<nat>)
    requires ws == Words(a + b) && |b| >= 16 && b[0].data == MAGIC
    ensures |ws| >= 16 && ws[|a|] == MAGIC
  {
  }

  lemma WordsDiffer(ws: seq<nat>, header: seq<nat>, n: nat)
    requires |ws| >= 16 && |header| == 16 && n < 16 && ws[n] != header[n]
    ensures ws[..16] != header
  {
    assert ws[..16][n] == ws[n];
  }

  /** Words of a packet cut within its header. */
  lemma HeaderOnly(k: Params, c: Piece)
    requires c.Cut? && WellCut(k, c) && c.headerWords < HEADER_WORDS
    ensures |PieceBeats(k, c)| == c.headerWords
  {
    assert c.samples + c.lost == [];
    assert c.samples == [] && PayloadBeats(k, c.samples) == [];
  }

  lemma ShortCutSpoils(k: Params, cuts: seq<Piece>, q: Packet, f: nat, ws: seq<nat>)
    requires CutsFit(k, cuts) && f == FirstWith(cuts) < |cuts| && !CutWhereMagicRecurs(k, cuts, q)
    requires cuts[f].headerWords < HEADER_WORDS && ws == Words(Beats(k, cuts) + PacketBeats(k, q))
    ensures |ws| >= 16 && ws[..16] != H.HeaderWords(k, q.header)
  {
    var c, tail := cuts[f], cuts[f + 1..];
    FirstWordsOf(k, cuts, f);
    HeaderOnly(k, c);
    Assoc(PieceBeats(k, c), Beats(k, tail), PacketBeats(k, q));
    StartsWithMagic(k, tail, q);
    MagicAfter(PieceBeats(k, c), Beats(k, tail) + PacketBeats(k, q), ws);
    WordsDiffer(ws, H.HeaderWords(k, q.header), c.headerWords);
  }

  /** Words in front of which a whole header stands. */
  lemma StartsWithHeader(k: Params, h: HeaderInfo, rest: seq<Beat>, ws: seq<nat>)
    requires ws == Words(HeaderBeats(k, h, HEADER_WORDS) + rest)
    ensures |ws| >= 16 && ws[..16] == H.HeaderWords(k, h)
  {
  }

  lemma WholeHeaderCut(k: Params, cuts: seq<Piece>, q: Packet, f: nat, ws: seq<nat>)
    requires CutsFit(k, cuts) && f == FirstWith(cuts) < |cuts|
    requires cuts[f].headerWords == HEADER_WORDS && ws == Words(Beats(k, cuts) + PacketBeats(k, q))
    ensures |ws| >= 16 && ws[..16] == H.HeaderWords(k, cuts[f].header)
  {
    var c, more := cuts[f], Beats(k, cuts[f + 1..]);
    FirstWordsOf(k, cuts, f);
    Assoc(HeaderBeats(k, c.header, HEADER_WORDS), PayloadBeats(k, c.samples), more);
    Assoc(HeaderBeats(k, c.header, HEADER_WORDS), PayloadBeats(k, c.samples) + more, PacketBeats(k, q));
    StartsWithHeader(k, c.header, PayloadBeats(k, c.samples) + more + PacketBeats(k, q), ws);
  }

  lemma NothingCut(k: Params, cuts: seq<Piece>, q: Packet, ws: seq<nat>)
    requires CutsFit(k, cuts) && FirstWith(cuts) == |cuts| && ws == Words(Beats(k, cuts) + PacketBeats(k, q))
    ensures |ws| >= 16 && ws[..16] == H.HeaderWords(k, q.header)
  {
    FirstWordsOf(k, cuts, |cuts|);
    assert [] + PacketBeats(k, q) == PacketBeats(k, q);
    StartsWithHeader(k, q.header, PayloadBeats(k, q.samples), ws);
  }

  lemma DatagramWordsFit(k: Params, cuts: seq<Piece>, q: Packet)
    requires CutsFit(k, cuts) && |q.samples| == k.frameSamples && PieceFits(k, Whole(q))
    ensures WordsFit(Words(Beats(k, cuts) + PacketBeats(k, q)))
  {
    CutWordsFit(k, cuts);
    PieceWordsFit(k, Whole(q));
    WordsJoin(Beats(k, cuts), PacketBeats(k, q));
  }

  /** The datagram of a packet, after what was cut before it, unpacks to the packet's header if and only if harmless. */
  predicate UnpacksIffHarmless(k: Params, cuts: seq<Piece>, q: Packet)
    requires AllCut(cuts)
  {
    var unpacks := HeaderIn(Beats(k, cuts) + PacketBeats(k, q)) == Ok(H.Announced(k, q.header));
    && (Harmless(k, cuts, q) ==> unpacks)
    && (unpacks && !CutWhereMagicRecurs(k, cuts, q) ==> Harmless(k, cuts, q))
  }

  /**
   The datagram of a whole packet unpacks to the packet's header exactly when the packets cut before it are harmless:
   they put no word out, or the first that did had its whole header out and announced the same. The one case left open
   is a header in which the magic number stands again at the very word where that packet was cut.
   */
  lemma DatagramUnpacksIff(k: Params, cuts: seq<Piece>, q: Packet)
    requires CutsFit(k, cuts) && |q.samples| == k.frameSamples && PieceFits(k, Whole(q))
    ensures UnpacksIffHarmless(k, cuts, q)
  {
    var f, ws := FirstWith(cuts), Words(Beats(k, cuts) + PacketBeats(k, q));
    DatagramWordsFit(k, cuts, q);
    if f == |cuts| {
      NothingCut(k, cuts, q, ws);
    } else if cuts[f].headerWords == HEADER_WORDS {
      WholeHeaderCut(k, cuts, q, f, ws);
    } else if !CutWhereMagicRecurs(k, cuts, q) {
      ShortCutSpoils(k, cuts, q, f, ws);
    }
    if |ws| >= 16 {
      UnpacksIffWords(k, ws, q.header);
    }
  }

  // ---- every run ---------------------------------------------------------------------------------------------

  /** Pieces whose words are those that left and the one that waits, and whose headers and samples fit their widths. */
  ghost predicate PiecesOfRun(k: Params, p0: Packetizer, ins: seq<In>, cs: seq<Piece>) {
    var t := Run(k, p0, ins);
    && t.accepted + Pending(t.p) == Pending(p0) + Beats(k, cs) && AllWellCut(k, cs)
    && (RegistersFit(p0) && InputsFit(ins) ==> PiecesFit(k, cs))
  }

  /** The open packet, as if it were cut now. */
  lemma OpenAsCut(k: Params, p: Packetizer, open: seq<nat>, c: Piece)
    requires Position(k, p, open) && ValidParams(k)
    requires c == Cut(Info(p), if p.phase.Payload? then HEADER_WORDS else p.headerIndex, open, [])
    ensures PieceBeats(k, c) == OpenBeats(k, p, open) && WellCut(k, c)
  {
    assert PayloadBeats(k, []) == [];
  }

  /**
   In every run, what has left, cut at TLAST, is a datagram for each whole packet, with the words of the packets cut
   before it in front, and with the word that waited at the start before all.
   */
  lemma RunDatagrams(k: Params, p0: Packetizer, ins: seq<In>) returns (cs: seq<Piece>)
    requires ValidParams(k) && AtStart(p0)
    ensures PiecesOfRun(k, p0, ins, cs)
    ensures var t := Run(k, p0, ins);
            CutAtLast(t.accepted).frames == LeftFrames(Grouped(k, CutAtLast(Pending(p0)), cs).frames, t.p)
  {
    var before, q0, acc, con, u, done, open := EveryRunIsPieces(k, p0, ins);
    var t := Run(k, p0, ins);
    var c := Cut(Info(t.p), if t.p.phase.Payload? then HEADER_WORDS else t.p.headerIndex, open, []);
    OpenAsCut(k, t.p, open, c);
    CutWords(k, p0, before, q0, acc, con, t, u, done, open, c);
    CutPieces(k, before, q0, done, c);
    cs := NowCut(before, done, c);
    if RegistersFit(p0) && InputsFit(ins) {
      PiecesFitNow(k, t.p, before, done, open, c);
    }
    CutOfPieces(k, Pending(p0), cs);
    CutAccepted(t.accepted, t.p);
  }

  lemma PiecesFitNow(k: Params, p: Packetizer, cs: seq<Piece>, done: seq<Packet>, open: seq<nat>, c: Piece)
    requires ValidParams(k) && RunFits(k, p, cs, done, open) && c.Cut? && c.header == Info(p) && c.samples == open
    ensures PiecesFit(k, NowCut(cs, done, c))
  {
    assert PieceFits(k, c);
  }

  lemma CutsOfRun(k: Params, cs: seq<Piece>, i: nat, j: nat)
    requires AllWellCut(k, cs) && PiecesFit(k, cs) && CutSince(cs, i, j)
    ensures CutsFit(k, cs[i..j])
  {
  }

  lemma DatagramOfRun(k: Params, p0: Packetizer, ins: seq<In>, n: nat) returns (cs: seq<Piece>, i: nat, j: nat)
    requires ValidParams(k) && AtStart(p0)
    requires |CutAtLast(Pending(p0)).frames| <= n < |CutAtLast(Run(k, p0, ins).accepted).frames|
    ensures PiecesOfRun(k, p0, ins, cs)
    ensures IsDatagramOf(k, CutAtLast(Pending(p0)), cs, i, j, n, CutAtLast(Run(k, p0, ins).accepted).frames[n])
  {
    cs := RunDatagrams(k, p0, ins);
    var start := CutAtLast(Pending(p0));
    LeftPrefix(Grouped(k, start, cs).frames, Run(k, p0, ins).p, n);
    i, j := DatagramOfPieces(k, start, cs, n);
  }

  /**
   In every run from reset, each datagram unpacks to the header of the whole packet it ends with exactly when the
   packets cut since the whole packet before it are harmless.
   */
  lemma RunUnpacksIff(k: Params, ins: seq<In>, n: nat) returns (cs: seq<Piece>, i: nat, j: nat)
    requires ValidParams(k) && InputsFit(ins) && n < |CutAtLast(Run(k, Reset(), ins).accepted).frames|
    ensures PiecesOfRun(k, Reset(), ins, cs)
    ensures CutSince(cs, i, j) && j < |cs| && cs[j].Whole? && WholeCount(cs[..j]) == n
    ensures CutAtLast(Run(k, Reset(), ins).accepted).frames[n] == Beats(k, cs[i..j]) + PacketBeats(k, cs[j].packet)
    ensures UnpacksIffHarmless(k, cs[i..j], cs[j].packet)
  {
    cs, i, j := DatagramOfRun(k, Reset(), ins, n);
    NothingLeads(k, cs, i, j, n, CutAtLast(Run(k, Reset(), ins).accepted).frames[n]);
    PiecesUnpack(k, cs, i, j);
  }

  lemma NothingLeads(k: Params, cs: seq<Piece>, i: nat, j: nat, n: nat, datagram: seq<Beat>)
    requires IsDatagramOf(k, CutAtLast(Pending(Reset())), cs, i, j, n, datagram)
    ensures datagram == Beats(k, cs[i..j]) + PacketBeats(k, cs[j].packet) && WholeCount(cs[..j]) == n
  {
    assert Lead(CutAtLast(Pending(Reset())), i) == [] && [] + Beats(k, cs[i..j]) == Beats(k, cs[i..j]);
  }

  lemma PiecesUnpack(k: Params, cs: seq<Piece>, i: nat, j: nat)
    requires ValidParams(k) && AllWellCut(k, cs) && PiecesFit(k, cs) && CutSince(cs, i, j) && j < |cs| && cs[j].Whole?
    ensures UnpacksIffHarmless(k, cs[i..j], cs[j].packet)
  {
    CutsOfRun(k, cs, i, j);
    assert PieceFits(k, cs[j]) && WellCut(k, cs[j]);
    DatagramUnpacksIff(k, cs[i..j], cs[j].packet);
  }

  // ---- a run in which the first packet does not unpack ------------------------------------------------------------

  lemma SecondMember(fs: seq<Field>, data: seq<byte>)
    requires |fs| >= 2 && |data| >= SizeOf(fs)
    ensures var a, b := fs[0].width, fs[1].width;
            a + b <= |data| && UnpackStruct(fs, data)[1] == DecodeField(fs[1], data[a..a + b])
  {
    var a, b := fs[0].width, fs[1].width;
    var rest, more := fs[1..], data[a..];
    assert SizeOf(fs) == a + SizeOf(rest) && SizeOf(rest) == b + SizeOf(rest[1..]);
    assert UnpackStruct(fs, data)[1] == UnpackStruct(rest, more)[0];
    assert more[..b] == data[a..a + b];
  }

  /** The version that a receiver reads is in the third quarter of the eight bytes of the first two words. */
  lemma VersionOf(data: seq<byte>)
    requires |data| >= IQ_HEADER_SIZE
    ensures SizeOf(IqFields()) == IQ_HEADER_SIZE
    ensures UnpackStruct(IqFields(), data)[1] == DecodeField(U(2), data[4..6])
  {
    IqSize();
    SecondMember(IqFields(), data);
  }

  lemma SecondWord(ws: seq<nat>, w: nat)
    requires |ws| >= 2 && ws[1] == w
    ensures H.BytesOf(ws)[4..6] == Le(4, w)[..2]
  {
    assert ws[0..] == ws;
    H.BytesFrom(ws, 0);
    H.BytesFrom(ws, 1);
  }

  lemma VersionFails(data: seq<byte>)
    requires |data| >= IQ_HEADER_SIZE && data[4..6] == Le(4, MAGIC)[..2]
    ensures UnpackIq(data).Err?
  {
    VersionOf(data);
    LowHalfOfMagic();
    assert IqFromValues(UnpackStruct(IqFields(), data)).version != VERSION;
  }

  /** Words whose second is the magic number do not unpack at all. */
  lemma MagicTwiceFails(ws: seq<nat>)
    requires |ws| >= 16 && ws[1] == MAGIC
    ensures UnpackIq(H.BytesOf(ws)).Err?
  {
    SecondWord(ws, MAGIC);
    VersionFails(H.BytesOf(ws));
  }

  lemma TwoBytes(b: seq<byte>)
    requires |b| == 2
    ensures FromLe(b) == b[0] as int + 256 * (b[1] as int)
  {
    assert b[1..][1..] == [] && FromLe([]) == 0;
    assert FromLe(b[1..]) == b[1];
  }

  lemma LowHalfOfMagic()
    ensures DecodeField(U(2), Le(4, MAGIC)[..2]) == MAGIC % 0x1_0000
  {
    var b := Le(4, MAGIC);
    assert b[0] == MAGIC % 256 && b[1] == MAGIC / 256 % 256;
    TwoBytes(b[..2]);
  }

  /** A steady cycle with a ready sink, one more, and a strobe that the sink stalls. */
  function CutAfterOneWord(i: In, strobe: In): seq<In> {
    [i] + [i] + [strobe]
  }

  /** Then the first word of a header waits, and the next packet's datagram starts with it. */
  lemma FirstWordWaits(k: Params, i: In, strobe: In)
    requires Steady(i) && i.mReady && strobe.enable && strobe.configChanged && !strobe.mReady
    ensures var t := Run(k, Reset(), CutAfterOneWord(i, strobe));
            AtStart(t.p) && t.accepted == [] && Pending(t.p) == [Beat(MAGIC, 0xf, false)]
  {
    var none: seq<In> := [];
    RunStep(k, Reset(), none, i);
    assert none + [i] == [i];
    RunStep(k, Reset(), [i], i);
    RunStep(k, Reset(), [i] + [i], strobe);
  }

  /** So the packet that follows, number 0 with its flags, does not unpack at the receiver. */
  lemma CutWordSpoilsNextPacket(k: Params, q: Packet)
    ensures HeaderIn([Beat(MAGIC, 0xf, false)] + PacketBeats(k, q)).Err?
  {
    var datagram := [Beat(MAGIC, 0xf, false)] + PacketBeats(k, q);
    assert datagram[1] == HeaderBeats(k, q.header, HEADER_WORDS)[0];
    MagicTwiceFails(Words(datagram));
  }
}
