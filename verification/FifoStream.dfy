/**
 The packetizer and the dual-clock FIFO behind it, as one machine: the FIFO's full flag is the packetizer's
 back-pressure, and the datagrams are cut from the words that come out on the bus side.
 */
module FifoStream {
  import opened Datagrams
  import opened IqPacketizer
  import opened Modular
  import opened PacketPieces
  import F = AsyncFifo

  /** An instant at which the sample clock, the bus clock, or both rise; the reset is that of the sample side. */
  datatype Edge =
    | Sample(rst: bool, i: In)
    | Bus(r: F.ReadIn)
    | Both(rst: bool, i: In, r: F.ReadIn, sNew: seq<bool>, mNew: seq<bool>)

  /** The packetizer's inputs and the FIFO's edges, each with what the other block drives. */
  datatype Driven = Driven(ins: seq<In>, edges: seq<F.Edge<Beat>>)

  predicate Samples(e: Edge) {
    !e.Bus?
  }

  /** `s_tready` is the packetizer's `m_axis_tready`. */
  function NextInputs(ins: seq<In>, e: Edge, full: bool): seq<In> {
    if !Samples(e) then ins else if e.rst then [] else ins + [e.i.(mReady := !full)]
  }

  function FifoEdge(p: Packetizer, e: Edge): F.Edge<Beat> {
    match e
    case Sample(rst, _) => F.SClk(F.WriteIn(rst, p.tvalid, p.out))
    case Bus(r) => F.MClk(r)
    case Both(rst, _, r, sNew, mNew) => F.Both(F.WriteIn(rst, p.tvalid, p.out), r, sNew, mNew)
  }

  function Drive(k: Params, a: nat, mem: seq<Beat>, d: Driven, e: Edge): Driven
    requires a >= 2 && |mem| == Pow2(a)
  {
    Driven(NextInputs(d.ins, e, F.Run(a, mem, d.edges).f.s.full), d.edges + [FifoEdge(Run(k, Reset(), d.ins).p, e)])
  }

  /** From power-up, with any memory contents. */
  function RunBoth(k: Params, a: nat, mem: seq<Beat>, es: seq<Edge>): Driven
    requires a >= 2 && |mem| == Pow2(a)
  {
    if es == [] then Driven([], []) else Drive(k, a, mem, RunBoth(k, a, mem, es[..|es| - 1]), es[|es| - 1])
  }

  /** Neither side is reset again after its release. */
  predicate ResetsFirst(es: seq<Edge>) {
    && (forall i, j :: 0 <= i < j < |es| && Samples(es[i]) && Samples(es[j]) && es[j].rst ==> es[i].rst)
    && (forall i, j :: 0 <= i < j < |es| && !es[i].Sample? && !es[j].Sample? && es[j].r.rst ==> es[i].r.rst)
  }

  /** The FIFO's edges are the machine's edges, resets included. */
  predicate SameEdge(e: Edge, f: F.Edge<Beat>) {
    && F.HasS(f) == Samples(e) && F.HasM(f) == !e.Sample?
    && (Samples(e) ==> f.w.rst == e.rst) && (!e.Sample? ==> f.r == e.r)
  }

  predicate AllSame(es: seq<Edge>, edges: seq<F.Edge<Beat>>) {
    |edges| == |es| && forall n :: 0 <= n < |es| ==> SameEdge(es[n], edges[n])
  }

  lemma SameEdgesMore(es: seq<Edge>, edges: seq<F.Edge<Beat>>, e: Edge, p: Packetizer)
    requires AllSame(es, edges)
    ensures AllSame(es + [e], edges + [FifoEdge(p, e)])
  {
    assert SameEdge(e, FifoEdge(p, e));
  }

  lemma {:induction false} SameEdges(k: Params, a: nat, mem: seq<Beat>, es: seq<Edge>)
    requires a >= 2 && |mem| == Pow2(a)
    ensures AllSame(es, RunBoth(k, a, mem, es).edges)
  {
    if es != [] {
      var init, e := es[..|es| - 1], es[|es| - 1];
      SameEdges(k, a, mem, init);
      var d := RunBoth(k, a, mem, init);
      SameEdgesMore(init, d.edges, e, Run(k, Reset(), d.ins).p);
      assert es == init + [e];
    }
  }

  lemma FifoResetsFirst(es: seq<Edge>, edges: seq<F.Edge<Beat>>)
    requires ResetsFirst(es) && AllSame(es, edges)
    ensures F.ResetsFirst(edges)
  {
  }

  /** While the sample side is held in reset the packetizer has taken no input. */
  lemma {:induction false} NoInputInReset(k: Params, a: nat, mem: seq<Beat>, es: seq<Edge>)
    requires a >= 2 && |mem| == Pow2(a) && forall n :: 0 <= n < |es| && Samples(es[n]) ==> es[n].rst
    ensures RunBoth(k, a, mem, es).ins == []
  {
    if es != [] {
      NoInputInReset(k, a, mem, es[..|es| - 1]);
    }
  }

  /** What an edge pushes. */
  lemma PushOf(a: nat, t: F.Trace<Beat>, p: Packetizer, e: Edge)
    requires F.Sized(a, t.f)
    ensures F.Advance(a, t, FifoEdge(p, e)).pushed ==
            t.pushed + if Samples(e) && !e.rst && p.tvalid && !t.f.s.full then [p.out] else []
  {
  }

  /** What the packetizer sees accepted at that edge. */
  lemma AcceptOf(k: Params, ins: seq<In>, e: Edge, full: bool)
    requires Samples(e) && e.rst ==> ins == []
    ensures Run(k, Reset(), NextInputs(ins, e, full)).accepted ==
            Run(k, Reset(), ins).accepted +
            if Samples(e) && !e.rst && Run(k, Reset(), ins).p.tvalid && !full then [Run(k, Reset(), ins).p.out] else []
  {
    if Samples(e) && !e.rst {
      RunStep(k, Reset(), ins, e.i.(mReady := !full));
    }
  }

  /** The FIFO has taken what the packetizer handed over. */
  ghost predicate Agree(k: Params, a: nat, mem: seq<Beat>, d: Driven)
    requires a >= 2 && |mem| == Pow2(a)
  {
    F.Run(a, mem, d.edges).pushed == Run(k, Reset(), d.ins).accepted
  }

  lemma DriveAgrees(k: Params, a: nat, mem: seq<Beat>, d: Driven, e: Edge)
    requires a >= 2 && |mem| == Pow2(a) && Agree(k, a, mem, d) && (Samples(e) && e.rst ==> d.ins == [])
    ensures Agree(k, a, mem, Drive(k, a, mem, d, e))
  {
    var t, p := F.Run(a, mem, d.edges), Run(k, Reset(), d.ins).p;
    F.RunExtend(a, mem, d.edges, FifoEdge(p, e));
    PushOf(a, t, p, e);
    AcceptOf(k, d.ins, e, t.f.s.full);
  }

  lemma {:induction false} PushedIsAccepted(k: Params, a: nat, mem: seq<Beat>, es: seq<Edge>)
    requires a >= 2 && |mem| == Pow2(a) && ResetsFirst(es)
    ensures Agree(k, a, mem, RunBoth(k, a, mem, es))
  {
    if es != [] {
      var init, e := es[..|es| - 1], es[|es| - 1];
      PushedIsAccepted(k, a, mem, init);
      if Samples(e) && e.rst {
        NoInputInReset(k, a, mem, init);
      }
      DriveAgrees(k, a, mem, RunBoth(k, a, mem, init), e);
    }
  }

  // ---- datagrams behind the FIFO -------------------------------------------------------------------------------

  /** Words that have not come yet leave the datagrams so far as they are. */
  lemma {:induction false} CutPrefix(a: seq<Beat>, b: seq<Beat>)
    requires a <= b
    ensures CutAtLast(a).frames <= CutAtLast(b).frames
  {
    if a != b {
      var init := b[..|b| - 1];
      CutPrefix(a, init);
      CutExtend(init, b[|b| - 1]);
      assert b == init + [b[|b| - 1]];
    }
  }

  /** The words that have come out of the FIFO. */
  function PoppedWords(k: Params, a: nat, mem: seq<Beat>, es: seq<Edge>): seq<Beat>
    requires a >= 2 && |mem| == Pow2(a)
  {
    F.Taken(a, mem, RunBoth(k, a, mem, es).edges)
  }

  /**
   In every interleaving of the two clocks: what comes out of the FIFO is what the packetizer got rid of, in order and
   but for at most a FIFO's depth of words still inside, and the datagrams cut from it are the packetizer's first ones.
   */
  lemma FifoDeliversTheStream(k: Params, a: nat, mem: seq<Beat>, es: seq<Edge>)
    requires a >= 2 && |mem| == Pow2(a) && ResetsFirst(es)
    ensures var accepted := Run(k, Reset(), RunBoth(k, a, mem, es).ins).accepted;
            && PoppedWords(k, a, mem, es) <= accepted
            && |accepted| - |PoppedWords(k, a, mem, es)| <= Pow2(a)
            && CutAtLast(PoppedWords(k, a, mem, es)).frames <= CutAtLast(accepted).frames
  {
    var d := RunBoth(k, a, mem, es);
    SameEdges(k, a, mem, es);
    FifoResetsFirst(es, d.edges);
    F.RunIsBoundedQueue(a, mem, d.edges);
    PushedIsAccepted(k, a, mem, es);
    F.RunTransfers(a, mem, d.edges);
    CutPrefix(F.Taken(a, mem, d.edges), Run(k, Reset(), d.ins).accepted);
  }

  predicate EdgesFit(es: seq<Edge>) {
    forall n :: 0 <= n < |es| && Samples(es[n]) ==> InputFits(es[n].i)
  }

  lemma {:induction false} DrivenFits(k: Params, a: nat, mem: seq<Beat>, es: seq<Edge>)
    requires a >= 2 && |mem| == Pow2(a) && EdgesFit(es)
    ensures InputsFit(RunBoth(k, a, mem, es).ins)
  {
    if es != [] {
      DrivenFits(k, a, mem, es[..|es| - 1]);
    }
  }

  /**
   A datagram cut behind the FIFO is one whole packet with the packets cut before it in front, and unpacks to that
   packet's header exactly when those are harmless.
   */
  lemma DeliveredUnpacksIff(k: Params, a: nat, mem: seq<Beat>, es: seq<Edge>, n: nat)
    returns (cs: seq<Piece>, i: nat, j: nat)
    requires ValidParams(k) && a >= 2 && |mem| == Pow2(a) && ResetsFirst(es) && EdgesFit(es)
    requires n < |CutAtLast(PoppedWords(k, a, mem, es)).frames|
    ensures PiecesOfRun(k, Reset(), RunBoth(k, a, mem, es).ins, cs)
    ensures CutSince(cs, i, j) && j < |cs| && cs[j].Whole? && WholeCount(cs[..j]) == n
    ensures CutAtLast(PoppedWords(k, a, mem, es)).frames[n] == Beats(k, cs[i..j]) + PacketBeats(k, cs[j].packet)
    ensures UnpacksIffHarmless(k, cs[i..j], cs[j].packet)
  {
    DrivenFits(k, a, mem, es);
    FifoDeliversTheStream(k, a, mem, es);
    cs, i, j := RunUnpacksIff(k, RunBoth(k, a, mem, es).ins, n);
  }
}
