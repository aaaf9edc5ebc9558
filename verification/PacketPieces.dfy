/**
 The packetizer's output over whole runs, with the stream disabled and reconfigured at will: packets, and
 packets cut short.
 */
module PacketPieces {
  import opened IqPacketizer
  import opened Modular
  import opened Sequences
  import H = HeaderLayout

  /**
   What a run puts on the output: a whole packet, or the beginning of one, with the sample, if any, that was
   taken from the input at the edge that cut it.
   */
  datatype Piece =
    | Whole(packet: Packet)
    | Cut(header: HeaderInfo, headerWords: nat, samples: seq<nat>, lost: seq<nat>)

  function PieceBeats(k: Params, c: Piece): seq<Beat> {
    match c
    case Whole(q) => PacketBeats(k, q)
    case Cut(h, n, samples, _) => HeaderBeats(k, h, n) + PayloadBeats(k, samples)
  }

  function PieceSamples(c: Piece): seq<nat> {
    match c
    case Whole(q) => q.samples
    case Cut(_, _, samples, lost) => samples + lost
  }

  function Beats(k: Params, cs: seq<Piece>): seq<Beat> {
    if cs == [] then [] else Beats(k, cs[..|cs| - 1]) + PieceBeats(k, cs[|cs| - 1])
  }

  function Taken(cs: seq<Piece>): seq<nat> {
    if cs == [] then [] else Taken(cs[..|cs| - 1]) + PieceSamples(cs[|cs| - 1])
  }

  function WholeCount(cs: seq<Piece>): nat {
    if cs == [] then 0 else WholeCount(cs[..|cs| - 1]) + if cs[|cs| - 1].Whole? then 1 else 0
  }

  /** A cut packet lacks at least its last word, and its payload starts after the whole header. */
  predicate WellCut(k: Params, c: Piece) {
    match c
    case Whole(q) => |q.samples| == k.frameSamples
    case Cut(_, n, samples, lost) =>
      n <= HEADER_WORDS && |samples| < k.frameSamples && (samples + lost != [] ==> n == HEADER_WORDS) && |lost| <= 1
  }

  predicate AllWellCut(k: Params, cs: seq<Piece>) {
    forall n :: 0 <= n < |cs| ==> WellCut(k, cs[n])
  }

  /** A 32-bit counter that started at `start` has counted the whole packets. */
  predicate Counts(start: nat, cs: seq<Piece>, count: nat) {
    count == (start + WholeCount(cs)) % WORD
  }

  /** TLAST marks the last word of a whole packet and no other. */
  lemma LastMarksWhole(k: Params, c: Piece, i: nat)
    requires ValidParams(k) && WellCut(k, c) && i < |PieceBeats(k, c)|
    ensures PieceBeats(k, c)[i].last <==> c.Whole? && i == |PieceBeats(k, c)| - 1
  {
    if c.Whole? {
      var header, payload := HeaderBeats(k, c.packet.header, HEADER_WORDS), PayloadBeats(k, c.packet.samples);
      assert PieceBeats(k, c)[i] == if i < HEADER_WORDS then header[i] else payload[i - HEADER_WORDS];
    } else {
      var header, payload := HeaderBeats(k, c.header, c.headerWords), PayloadBeats(k, c.samples);
      assert PieceBeats(k, c)[i] == if i < c.headerWords then header[i] else payload[i - c.headerWords];
    }
  }

  // ---- joining -------------------------------------------------------------------------------------------

  lemma PieceAppend(k: Params, cs: seq<Piece>, c: Piece)
    ensures Beats(k, cs + [c]) == Beats(k, cs) + PieceBeats(k, c)
    ensures Taken(cs + [c]) == Taken(cs) + PieceSamples(c)
    ensures WholeCount(cs + [c]) == WholeCount(cs) + if c.Whole? then 1 else 0
  {
    assert (cs + [c])[..|cs|] == cs;
  }

  function Wholes(done: seq<Packet>): (cs: seq<Piece>)
    ensures |cs| == |done| && forall n :: 0 <= n < |cs| ==> cs[n] == Whole(done[n])
  {
    seq(|done|, n requires 0 <= n < |done| => Whole(done[n]))
  }

  lemma WholesStep(cs: seq<Piece>, init: seq<Packet>, q: Packet)
    ensures cs + Wholes(init + [q]) == cs + Wholes(init) + [Whole(q)]
  {
  }

  lemma {:induction false} WholesBeats(k: Params, cs: seq<Piece>, done: seq<Packet>)
    ensures Beats(k, cs + Wholes(done)) == Beats(k, cs) + Stream(k, done)
  {
    if done == [] {
      assert cs + Wholes(done) == cs;
    } else {
      var init, q := done[..|done| - 1], done[|done| - 1];
      assert done == init + [q];
      WholesBeats(k, cs, init);
      WholesStep(cs, init, q);
      PieceAppend(k, cs + Wholes(init), Whole(q));
      Assoc(Beats(k, cs), Stream(k, init), PacketBeats(k, q));
    }
  }

  lemma {:induction false} WholesTaken(k: Params, cs: seq<Piece>, done: seq<Packet>)
    ensures Taken(cs + Wholes(done)) == Taken(cs) + AllSamples(done)
    ensures WholeCount(cs + Wholes(done)) == WholeCount(cs) + |done|
  {
    if done == [] {
      assert cs + Wholes(done) == cs;
    } else {
      var init, q := done[..|done| - 1], done[|done| - 1];
      assert done == init + [q];
      WholesTaken(k, cs, init);
      WholesStep(cs, init, q);
      PieceAppend(k, cs + Wholes(init), Whole(q));
      Assoc(Taken(cs), AllSamples(init), q.samples);
    }
  }

  // ---- whole runs ----------------------------------------------------------------------------------------

  /** `s_axis_tready` does not look at the enable or the strobe: a sample taken at such an edge goes nowhere. */
  function LostAt(p: Packetizer, i: In): seq<nat> {
    if InReady(p, i) && i.sValid then [i.sData] else []
  }

  /** What the edges that are not steady lose, one entry for each of them. */
  function LossesBy(k: Params, p0: Packetizer, ins: seq<In>): seq<seq<nat>> {
    if ins == [] then []
    else
      var init, i := ins[..|ins| - 1], ins[|ins| - 1];
      LossesBy(k, p0, init) + if Steady(i) then [] else [LostAt(Run(k, p0, init).p, i)]
  }

  lemma LossesStep(k: Params, p0: Packetizer, init: seq<In>, i: In)
    ensures LossesBy(k, p0, init + [i]) ==
            if Steady(i) then LossesBy(k, p0, init) else LossesBy(k, p0, init) + [LostAt(Run(k, p0, init).p, i)]
  {
    assert (init + [i])[..|init|] == init;
    assert LossesBy(k, p0, init) + [] == LossesBy(k, p0, init);
  }

  /** What the cut packets lost, one entry for each of them. */
  function LossesIn(cs: seq<Piece>): seq<seq<nat>> {
    if cs == [] then []
    else
      var c := cs[|cs| - 1];
      LossesIn(cs[..|cs| - 1]) + if c.Whole? then [] else [c.lost]
  }

  lemma {:induction false} LossesConcat(cs: seq<Piece>, more: seq<Piece>)
    ensures LossesIn(cs + more) == LossesIn(cs) + LossesIn(more)
  {
    if more == [] {
      assert cs + more == cs && LossesIn(cs) + [] == LossesIn(cs);
    } else {
      var init, c := more[..|more| - 1], more[|more| - 1];
      assert (cs + more)[..|cs + more| - 1] == cs + init;
      LossesConcat(cs, init);
      Assoc(LossesIn(cs), LossesIn(init), if c.Whole? then [] else [c.lost]);
    }
  }

  lemma {:induction false} WholesLoseNothing(done: seq<Packet>)
    ensures LossesIn(Wholes(done)) == []
  {
    if done != [] {
      var init := done[..|done| - 1];
      WholesLoseNothing(init);
      assert Wholes(done)[..|done| - 1] == Wholes(init);
    }
  }

  lemma NowCutLosses(cs: seq<Piece>, done: seq<Packet>, c: Piece)
    requires c.Cut?
    ensures LossesIn(NowCut(cs, done, c)) == LossesIn(cs) + [c.lost]
  {
    LossesConcat(cs, Wholes(done));
    WholesLoseNothing(done);
    LossesConcat(cs + Wholes(done), [c]);
    assert [c][..0] == [] && LossesIn([c]) == [c.lost];
    assert LossesIn(cs) + [] == LossesIn(cs);
  }

  /** The packet in progress, as a piece cut at this edge. */
  function CutAt(p: Packetizer, i: In, open: seq<nat>): Piece {
    Cut(Info(p), if p.phase.Payload? then HEADER_WORDS else p.headerIndex, open, LostAt(p, i))
  }

  /** The words `acc` that left and the samples `con` that were taken are those of the pieces. */
  ghost predicate WordsBefore(k: Params, p0: Packetizer, cs: seq<Piece>, q0: Packetizer, acc: seq<Beat>,
                              con: seq<nat>) {
    acc + Pending(q0) == Pending(p0) + Beats(k, cs) && con == Taken(cs) && AllWellCut(k, cs)
  }

  /** The pieces until the stream was last disabled or reconfigured, when the registers were `q0`. */
  ghost predicate Before(k: Params, p0: Packetizer, cs: seq<Piece>, q0: Packetizer, acc: seq<Beat>, con: seq<nat>) {
    WordsBefore(k, p0, cs, q0, acc, con) && Counts(p0.packetCount, cs, q0.packetCount)
  }

  /** A run `t` that is `acc` and `con`, and then the run `u`. */
  predicate Follows(t: Trace, acc: seq<Beat>, con: seq<nat>, u: Trace) {
    t.p == u.p && t.accepted == acc + u.accepted && t.consumed == con + u.consumed
  }

  lemma FollowsStep(k: Params, t: Trace, acc: seq<Beat>, con: seq<nat>, u: Trace, i: In)
    requires Follows(t, acc, con, u)
    ensures Follows(Advance(k, t, i), acc, con, Advance(k, u, i))
  {
  }

  /** An edge that is not steady puts no word on the output. */
  lemma NothingAdded(k: Params, t: Trace, i: In)
    requires !Steady(i)
    ensures var t' := Advance(k, t, i); t'.accepted + Pending(t'.p) == t.accepted + Pending(t.p)
  {
  }

  /** The open packet's words and samples are those of the piece it becomes. */
  lemma OpenIsCut(k: Params, p: Packetizer, i: In, open: seq<nat>)
    requires Position(k, p, open) && ValidParams(k)
    ensures PieceBeats(k, CutAt(p, i, open)) == OpenBeats(k, p, open) && WellCut(k, CutAt(p, i, open))
    ensures PieceSamples(CutAt(p, i, open)) == open + LostAt(p, i)
  {
    assert PayloadBeats(k, []) == [];
  }

  lemma Regroup(a: seq<Beat>, b: seq<Beat>, c: seq<Beat>, d: seq<Beat>, e: seq<Beat>, f: seq<Beat>, g: seq<Beat>)
    requires a + b == c + d && e + f == b + g
    ensures a + e + f == c + d + g
  {
    assert a + e + f == a + (e + f) && a + (b + g) == (a + b) + g;
  }

  lemma CountCut(start: nat, before: nat, done: nat, q: nat)
    requires q == (start + before) % WORD
    ensures (q + done) % WORD == (start + (before + done)) % WORD
  {
    ModAddLeft(start + before, done, WORD);
  }

  /** The packets that are done and the one that is cut. */
  function NowCut(cs: seq<Piece>, done: seq<Packet>, c: Piece): seq<Piece> {
    cs + Wholes(done) + [c]
  }

  lemma NowCutWords(k: Params, cs: seq<Piece>, done: seq<Packet>, c: Piece)
    ensures Beats(k, NowCut(cs, done, c)) == Beats(k, cs) + (Stream(k, done) + PieceBeats(k, c))
    ensures Taken(NowCut(cs, done, c)) == Taken(cs) + (AllSamples(done) + PieceSamples(c))
    ensures c.Cut? ==> WholeCount(NowCut(cs, done, c)) == WholeCount(cs) + |done|
  {
    WholesBeats(k, cs, done);
    WholesTaken(k, cs, done);
    PieceAppend(k, cs + Wholes(done), c);
    Assoc(Beats(k, cs), Stream(k, done), PieceBeats(k, c));
    Assoc(Taken(cs), AllSamples(done), PieceSamples(c));
  }

  lemma CutWords(k: Params, p0: Packetizer, cs: seq<Piece>, q0: Packetizer, acc: seq<Beat>, con: seq<nat>, t: Trace,
                 u: Trace,
                 done: seq<Packet>, open: seq<nat>, c: Piece)
    requires WordsBefore(k, p0, cs, q0, acc, con) && Follows(t, acc, con, u) && FramedWords(k, q0, u, done, open)
    requires PieceBeats(k, c) == OpenBeats(k, t.p, open)
    ensures t.accepted + Pending(t.p) == Pending(p0) + Beats(k, NowCut(cs, done, c))
  {
    NowCutWords(k, cs, done, c);
    var part := Stream(k, done) + PieceBeats(k, c);
    Assoc(Pending(q0), Stream(k, done), PieceBeats(k, c));
    Regroup(acc, Pending(q0), Pending(p0), Beats(k, cs), u.accepted, Pending(u.p), part);
    Assoc(Pending(p0), Beats(k, cs), part);
  }

  lemma CutTaken(k: Params, p0: Packetizer, cs: seq<Piece>, q0: Packetizer, acc: seq<Beat>, con: seq<nat>, t: Trace,
                 u: Trace,
                 done: seq<Packet>, open: seq<nat>, c: Piece, lost: seq<nat>)
    requires WordsBefore(k, p0, cs, q0, acc, con) && Follows(t, acc, con, u) && FramedWords(k, q0, u, done, open)
    requires PieceSamples(c) == open + lost
    ensures t.consumed + lost == Taken(NowCut(cs, done, c))
  {
    NowCutWords(k, cs, done, c);
    Assoc(AllSamples(done), open, lost);
    Assoc(con, AllSamples(done) + open, lost);
  }

  lemma CutPieces(k: Params, cs: seq<Piece>, q0: Packetizer, done: seq<Packet>, c: Piece)
    requires AllWellCut(k, cs) && WellCut(k, c) && Consecutive(k, q0, done)
    ensures AllWellCut(k, NowCut(cs, done, c))
  {
    forall n | 0 <= n < |NowCut(cs, done, c)|
      ensures WellCut(k, NowCut(cs, done, c)[n])
    {
      if |cs| <= n < |cs| + |done| {
        assert InSequence(k, q0, done, n - |cs|);
      }
    }
  }

  lemma NowCutCount(k: Params, cs: seq<Piece>, done: seq<Packet>, c: Piece)
    requires c.Cut?
    ensures WholeCount(NowCut(cs, done, c)) == WholeCount(cs) + |done|
  {
    NowCutWords(k, cs, done, c);
  }

  lemma CountsMore(start: nat, w: nat, n: nat, before: nat, after: nat, total: nat)
    requires before == (start + w) % WORD && after == (before + n) % WORD && total == w + n
    ensures after == (start + total) % WORD
  {
    CountCut(start, w, n, before);
  }

  lemma CutCounts(k: Params, start: nat, cs: seq<Piece>, before: nat, done: seq<Packet>, c: Piece, after: nat)
    requires c.Cut? && Counts(start, cs, before) && after == (before + |done|) % WORD
    ensures Counts(start, NowCut(cs, done, c), after)
  {
    NowCutCount(k, cs, done, c);
    CountsMore(start, WholeCount(cs), |done|, before, after, WholeCount(NowCut(cs, done, c)));
  }

  /** Registers at the start of an episode. */
  predicate AtStart(p: Packetizer) {
    p.phase.Idle? && p.headerIndex == 0 && p.payloadCount == 0 && p.packetSeq < WORD && p.packetCount < WORD
  }

  lemma StartFramed(k: Params, p: Packetizer)
    requires AtStart(p)
    ensures Framed(k, p, Trace(p, [], []), [], [])
  {
    ModSmall(p.packetSeq, WORD);
    ModSmall(p.packetCount, WORD);
  }

  lemma CutEdge(k: Params, t: Trace, i: In, t': Trace)
    requires !Steady(i) && t.p.packetSeq < WORD && t.p.packetCount < WORD && t' == Advance(k, t, i)
    ensures t'.accepted + Pending(t'.p) == t.accepted + Pending(t.p) && t'.consumed == t.consumed + LostAt(t.p, i)
    ensures AtStart(t'.p) && t'.p.firstPacket && t'.p.packetCount == t.p.packetCount
  {
    NothingAdded(k, t, i);
  }

  lemma BeforeCut(k: Params, p0: Packetizer, cs: seq<Piece>, q0: Packetizer, acc: seq<Beat>, con: seq<nat>,
                  t: Trace, u: Trace,
                  done: seq<Packet>, open: seq<nat>, c: Piece, t': Trace)
    requires WordsBefore(k, p0, cs, q0, acc, con) && Follows(t, acc, con, u) && FramedWords(k, q0, u, done, open)
    requires c.Cut? && WellCut(k, c) && Consecutive(k, q0, done)
    requires PieceBeats(k, c) == OpenBeats(k, t.p, open) && PieceSamples(c) == open + c.lost
    requires t'.accepted + Pending(t'.p) == t.accepted + Pending(t.p) && t'.consumed == t.consumed + c.lost
    ensures WordsBefore(k, p0, NowCut(cs, done, c), t'.p, t'.accepted, t'.consumed)
  {
    CutWords(k, p0, cs, q0, acc, con, t, u, done, open, c);
    CutTaken(k, p0, cs, q0, acc, con, t, u, done, open, c, c.lost);
    CutPieces(k, cs, q0, done, c);
  }

  /** The stream is disabled or reconfigured: what was open is cut, and an episode starts. */
  lemma EpisodeCut(k: Params, p0: Packetizer, cs: seq<Piece>, q0: Packetizer, acc: seq<Beat>, con: seq<nat>,
                   t: Trace, u: Trace,
                   i: In, done: seq<Packet>, open: seq<nat>, c: Piece, t': Trace)
    requires ValidParams(k) && Before(k, p0, cs, q0, acc, con) && Follows(t, acc, con, u) && Framed(k, q0, u, done,
            open)
    requires !Steady(i) && c == CutAt(t.p, i, open) && t' == Advance(k, t, i)
    ensures Before(k, p0, NowCut(cs, done, c), t'.p, t'.accepted, t'.consumed) && AtStart(t'.p) && t'.p.firstPacket
  {
    OpenIsCut(k, t.p, i, open);
    CutEdge(k, t, i, t');
    BeforeCut(k, p0, cs, q0, acc, con, t, u, done, open, c, t');
    CutCounts(k, p0.packetCount, cs, q0.packetCount, done, c, t.p.packetCount);
  }

  lemma RunStep(k: Params, p0: Packetizer, init: seq<In>, i: In)
    ensures Run(k, p0, init + [i]) == Advance(k, Run(k, p0, init), i)
  {
    assert (init + [i])[..|init|] == init;
  }

  /**
   The pieces `cs` of a run until the last edge that was not steady, when `acc` had left, `con` had been taken and the
   registers were `q0`, and the steady run `u` since then.
   */
  ghost predicate Pieces(k: Params, p0: Packetizer, ins: seq<In>, cs: seq<Piece>, q0: Packetizer, acc: seq<Beat>,
                         con: seq<nat>, u: Trace, done: seq<Packet>, open: seq<nat>) {
    && Before(k, p0, cs, q0, acc, con) && Follows(Run(k, p0, ins), acc, con, u) && Framed(k, q0, u, done, open)
    && LossesIn(cs) == LossesBy(k, p0, ins)
    && (cs != [] ==> q0.firstPacket)
  }

  lemma SteadyPieces(k: Params, p0: Packetizer, init: seq<In>, i: In, cs: seq<Piece>, q0: Packetizer, acc: seq<Beat>,
                     con: seq<nat>, u: Trace, done: seq<Packet>, open: seq<nat>)
    returns (done': seq<Packet>, open': seq<nat>)
    requires ValidParams(k) && Pieces(k, p0, init, cs, q0, acc, con, u, done, open) && Steady(i)
    ensures Pieces(k, p0, init + [i], cs, q0, acc, con, Advance(k, u, i), done', open')
    ensures Grown(u.p, i, done, open, done', open')
  {
    RunStep(k, p0, init, i);
    LossesStep(k, p0, init, i);
    FollowsStep(k, Run(k, p0, init), acc, con, u, i);
    done', open' := StepFramed(k, q0, u, i, done, open);
  }

  /** An episode that has just started. */
  lemma PiecesStart(k: Params, p0: Packetizer, ins: seq<In>, cs: seq<Piece>, t: Trace)
    requires t == Run(k, p0, ins) && Before(k, p0, cs, t.p, t.accepted, t.consumed)
    requires AtStart(t.p) && t.p.firstPacket && LossesIn(cs) == LossesBy(k, p0, ins)
    ensures Pieces(k, p0, ins, cs, t.p, t.accepted, t.consumed, Trace(t.p, [], []), [], [])
  {
    StartFramed(k, t.p);
    assert t.accepted + [] == t.accepted && t.consumed + [] == t.consumed;
  }

  lemma UnsteadyPieces(k: Params, p0: Packetizer, init: seq<In>, i: In, cs: seq<Piece>, q0: Packetizer, acc: seq<Beat>,
                       con: seq<nat>, u: Trace, done: seq<Packet>, open: seq<nat>, c: Piece, t': Trace)
    requires ValidParams(k) && Pieces(k, p0, init, cs, q0, acc, con, u, done, open) && !Steady(i)
    requires c == CutAt(Run(k, p0, init).p, i, open) && t' == Run(k, p0, init + [i])
    ensures Pieces(k, p0, init + [i], NowCut(cs, done, c), t'.p, t'.accepted, t'.consumed, Trace(t'.p, [], []), [], [])
  {
    RunStep(k, p0, init, i);
    LossesStep(k, p0, init, i);
    EpisodeCut(k, p0, cs, q0, acc, con, Run(k, p0, init), u, i, done, open, c, t');
    NowCutLosses(cs, done, c);
    PiecesStart(k, p0, init + [i], NowCut(cs, done, c), t');
  }

  // ---- widths --------------------------------------------------------------------------------------------

  predicate SettingsFit(s: Settings) {
    && s.frequencyHz < STAMP && s.sampleRateHz < WORD && s.bandwidthHz < WORD && s.decimation < WORD
    && s.flags < 0x1_0000 && -0x8000 <= s.gainDbQ8 < 0x8000
  }

  predicate RegistersFit(p: Packetizer) {
    p.packetSeq < WORD && p.packetTimestamp < STAMP && p.nextTimestamp < STAMP && SettingsFit(p.latched)
  }

  /** Inputs within the widths of their wires. */
  predicate InputFits(i: In) {
    SettingsFit(i.settings) && i.sData < WORD && i.seed < STAMP
  }

  predicate InputsFit(ins: seq<In>) {
    forall n :: 0 <= n < |ins| ==> InputFits(ins[n])
  }

  predicate WordsFit(ws: seq<nat>) {
    forall i :: 0 <= i < |ws| ==> ws[i] < WORD
  }

  /** Header and samples within the register widths. */
  predicate PieceFits(k: Params, c: Piece) {
    match c
    case Whole(q) => H.WithinWidths(k, q.header) && WordsFit(q.samples)
    case Cut(h, _, samples, _) => H.WithinWidths(k, h) && WordsFit(samples)
  }

  predicate PiecesFit(k: Params, cs: seq<Piece>) {
    forall n :: 0 <= n < |cs| ==> PieceFits(k, cs[n])
  }

  /** All pieces, the packets since the last of them, the open samples and the registers are within their widths. */
  predicate RunFits(k: Params, p: Packetizer, cs: seq<Piece>, done: seq<Packet>, open: seq<nat>) {
    RegistersFit(p) && PiecesFit(k, cs) && PiecesFit(k, Wholes(done)) && WordsFit(open)
  }

  lemma StepFits(k: Params, p: Packetizer, i: In)
    requires RegistersFit(p) && InputFits(i)
    ensures RegistersFit(Step(k, p, i))
  {
  }

  lemma GrownFits(k: Params, p: Packetizer, i: In, cs: seq<Piece>, done: seq<Packet>, open: seq<nat>,
                  done': seq<Packet>, open': seq<nat>)
    requires ValidParams(k) && RunFits(k, p, cs, done, open) && InputFits(i) && Grown(p, i, done, open, done', open')
    ensures RunFits(k, Step(k, p, i), cs, done', open')
  {
    StepFits(k, p, i);
    if done' != done {
      var q := Packet(Info(p), open + [i.sData]);
      assert PieceFits(k, Whole(q));
      assert Wholes(done') == Wholes(done) + [Whole(q)];
    }
  }

  lemma CutFits(k: Params, p: Packetizer, i: In, cs: seq<Piece>, done: seq<Packet>, open: seq<nat>)
    requires ValidParams(k) && RunFits(k, p, cs, done, open) && InputFits(i)
    ensures RunFits(k, Step(k, p, i), NowCut(cs, done, CutAt(p, i, open)), [], [])
  {
    StepFits(k, p, i);
    assert PieceFits(k, CutAt(p, i, open));
  }

  /**
   In every run, whatever the enable, the strobe, the back-pressure and the input gaps do: the words that left
   and the one that waits are the word that waited at the start and a sequence of whole packets and packets cut
   short, then the steady run since the last cut; the samples taken are those in the pieces, in order, with the
   ones that were lost at the cuts, one cut and its loss for each edge that is not steady; and `packet_count` counts
   the whole packets. The first packet after a cut is marked as such. Inputs within the widths of their wires make
   headers and samples within theirs.
   */
  lemma {:induction false} EveryRunIsPieces(k: Params, p0: Packetizer, ins: seq<In>)
    returns (cs: seq<Piece>, q0: Packetizer, acc: seq<Beat>, con: seq<nat>, u: Trace, done: seq<Packet>, open: seq<nat>)
    requires ValidParams(k) && AtStart(p0)
    ensures Pieces(k, p0, ins, cs, q0, acc, con, u, done, open)
    ensures RegistersFit(p0) && InputsFit(ins) ==> RunFits(k, u.p, cs, done, open)
  {
    if ins == [] {
      cs, q0, acc, con, u, done, open := [], p0, [], [], Trace(p0, [], []), [], [];
      StartFramed(k, p0);
      ModSmall(p0.packetCount, WORD);
    } else {
      var init, i := ins[..|ins| - 1], ins[|ins| - 1];
      assert ins == init + [i];
      cs, q0, acc, con, u, done, open := EveryRunIsPieces(k, p0, init);
      var fits := RunFits(k, u.p, cs, done, open) && InputFits(i);
      if Steady(i) {
        var done', open' := SteadyPieces(k, p0, init, i, cs, q0, acc, con, u, done, open);
        if fits {
          GrownFits(k, u.p, i, cs, done, open, done', open');
        }
        u, done, open := Advance(k, u, i), done', open';
      } else {
        var c, t' := CutAt(Run(k, p0, init).p, i, open), Run(k, p0, ins);
        UnsteadyPieces(k, p0, init, i, cs, q0, acc, con, u, done, open, c, t');
        if fits {
          CutFits(k, u.p, i, cs, done, open);
        }
        cs, q0, acc, con, u := NowCut(cs, done, c), t'.p, t'.accepted, t'.consumed, Trace(t'.p, [], []);
        done, open := [], [];
      }
    }
  }

  // ---- when a sample is lost ---------------------------------------------------------------------------------

  predicate NothingLost(losses: seq<seq<nat>>) {
    forall n :: 0 <= n < |losses| ==> losses[n] == []
  }

  /** Edge `n` is not steady and takes a sample. */
  predicate LosesAt(k: Params, p0: Packetizer, ins: seq<In>, n: nat)
    requires n < |ins|
  {
    !Steady(ins[n]) && InReady(Run(k, p0, ins[..n]).p, ins[n]) && ins[n].sValid
  }

  lemma NoMoreLost(losses: seq<seq<nat>>, more: seq<nat>)
    ensures NothingLost(losses + [more]) <==> NothingLost(losses) && more == []
  {
    if NothingLost(losses + [more]) {
      forall n | 0 <= n < |losses|
        ensures losses[n] == []
      {
        assert (losses + [more])[n] == [];
      }
      assert (losses + [more])[|losses|] == [];
    }
  }

  predicate NoneLosesAt(k: Params, p0: Packetizer, ins: seq<In>) {
    forall n :: 0 <= n < |ins| ==> !LosesAt(k, p0, ins, n)
  }

  lemma NoneLosesStep(k: Params, p0: Packetizer, init: seq<In>, i: In)
    ensures NoneLosesAt(k, p0, init + [i]) <==>
            NoneLosesAt(k, p0, init) && (Steady(i) || LostAt(Run(k, p0, init).p, i) == [])
  {
    var ins := init + [i];
    assert ins[..|init|] == init && ins[|init|] == i;
    assert LosesAt(k, p0, ins, |init|) <==> !Steady(i) && LostAt(Run(k, p0, init).p, i) != [];
    forall n | 0 <= n < |init|
      ensures LosesAt(k, p0, init, n) == LosesAt(k, p0, ins, n)
    {
      assert init[..n] == ins[..n];
    }
  }

  /** No sample is lost exactly when no edge that disables or reconfigures the stream takes one. */
  lemma {:induction false} NothingLostIff(k: Params, p0: Packetizer, ins: seq<In>)
    ensures NothingLost(LossesBy(k, p0, ins)) <==> NoneLosesAt(k, p0, ins)
  {
    if ins != [] {
      var init, i := ins[..|ins| - 1], ins[|ins| - 1];
      assert ins == init + [i];
      NothingLostIff(k, p0, init);
      LossesStep(k, p0, init, i);
      NoMoreLost(LossesBy(k, p0, init), LostAt(Run(k, p0, init).p, i));
      NoneLosesStep(k, p0, init, i);
    }
  }

  function Repeat(i: In, n: nat): (ins: seq<In>)
    ensures |ins| == n
  {
    if n == 0 then [] else Repeat(i, n - 1) + [i]
  }

  lemma RepeatMore(i: In, n: nat)
    requires n > 0
    ensures Repeat(i, n) == Repeat(i, n - 1) + [i]
  {
  }

  /** `n` cycles into a packet whose words leave at once. */
  predicate OnWay(p: Packetizer, n: nat) {
    if n == 0 then p.phase.Idle?
    else if n <= 16 then p.phase.Header? && p.headerIndex == n - 1
    else p.phase.Payload?
  }

  lemma OnWayStep(k: Params, p: Packetizer, i: In, n: nat)
    requires Steady(i) && i.mReady && n < 17 && OnWay(p, n)
    ensures OnWay(Step(k, p, i), n + 1)
  {
  }

  /** From an idle packetizer, seventeen steady cycles with a ready sink lead to the payload. */
  lemma {:induction false} ReachesPayload(k: Params, p0: Packetizer, i: In, n: nat)
    requires Steady(i) && i.mReady && n <= 17 && p0.phase.Idle?
    ensures OnWay(Run(k, p0, Repeat(i, n)).p, n)
  {
    if n > 0 {
      var init := Repeat(i, n - 1);
      ReachesPayload(k, p0, i, n - 1);
      RepeatMore(i, n);
      RunStep(k, p0, init, i);
      OnWayStep(k, Run(k, p0, init).p, i, n - 1);
    }
  }

  lemma {:induction false} SteadyLosesNothing(k: Params, p0: Packetizer, i: In, n: nat)
    requires Steady(i)
    ensures LossesBy(k, p0, Repeat(i, n)) == []
  {
    if n > 0 {
      SteadyLosesNothing(k, p0, i, n - 1);
      LossesStep(k, p0, Repeat(i, n - 1), i);
    }
  }

  /** A run that loses a sample: a strobe at the first payload cycle, while the sample is offered. */
  lemma StrobeLosesOfferedSample(k: Params, i: In, strobe: In, n: nat)
    requires Steady(i) && i.mReady && n == 17
    requires strobe.enable && strobe.configChanged && strobe.sValid && strobe.mReady
    ensures LossesBy(k, Reset(), Repeat(i, n) + [strobe]) == [[strobe.sData]]
  {
    ReachesPayload(k, Reset(), i, n);
    SteadyLosesNothing(k, Reset(), i, n);
    LossesStep(k, Reset(), Repeat(i, n), strobe);
  }
}
