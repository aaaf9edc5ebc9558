/**
 Configuration crossing between two clocks: the source holds a value and flips a toggle, the
 destination sees the toggle through three flip-flops and copies the held value when it changes.
 */
module ConfigSync {
  import opened Options

  /** The registers of both sides. */
  datatype Sync<C> = Sync(hold: C, toggle: bool, meta: bool, sync: bool, syncD: bool, data: C)

  /** Both sides out of reset with the value that all-zero registers stand for. */
  function Reset<C>(zero: C): Sync<C> {
    Sync(zero, false, false, false, false, zero)
  }

  /** A rising edge of the source clock, of the destination clock, or of both. */
  datatype Edge<C> =
    | Src(update: Option<C>)
    | Dst
    | Both(update: Option<C>, seesNew: bool, word: C)  // captured: the old or the new toggle, and, if the held word
                                                       // changes while it is being copied, any word at all

  predicate HasDst<C>(e: Edge<C>) { e.Dst? || e.Both? }
  predicate HasUpdate<C>(e: Edge<C>) { !e.Dst? && e.update.Some? }

  /** `dst_update`: a change has arrived and is being copied. */
  predicate Pulse<C>(s: Sync<C>) { s.sync != s.syncD }

  function SrcNext<C>(s: Sync<C>, u: Option<C>): Sync<C> {
    if u.Some? then s.(hold := u.value, toggle := !s.toggle) else s
  }

  /** `seen` and `word` are what the flip-flops capture of the toggle and of the held word. */
  function DstNext<C>(s: Sync<C>, seen: bool, word: C): Sync<C> {
    s.(meta := seen, sync := s.meta, syncD := s.sync, data := if Pulse(s) then word else s.data)
  }

  function Next<C>(s: Sync<C>, e: Edge<C>): Sync<C> {
    match e
    case Src(u) => SrcNext(s, u)
    case Dst => DstNext(s, s.toggle, s.hold)
    case Both(u, seesNew, word) =>
      var a := SrcNext(s, u);
      var d := DstNext(s, if seesNew then a.toggle else s.toggle, if u.Some? then word else s.hold);
      d.(hold := a.hold, toggle := a.toggle)
  }

  /** A run: the registers, the updates made, and the pulses delivered. */
  datatype Trace<C> = Trace(s: Sync<C>, updates: seq<C>, pulses: nat)

  function Advance<C>(t: Trace<C>, e: Edge<C>): Trace<C> {
    Trace(
      Next(t.s, e),
      t.updates + (if HasUpdate(e) then [e.update.value] else []),
      t.pulses + if HasDst(e) && Pulse(t.s) then 1 else 0)
  }

  function Run<C>(zero: C, es: seq<Edge<C>>): Trace<C> {
    if es == [] then Trace(Reset(zero), [], 0) else Advance(Run(zero, es[..|es| - 1]), es[|es| - 1])
  }

  /** A destination edge has fallen since the last update. */
  predicate Sampled<C>(es: seq<Edge<C>>) {
    es == [] ||
    var e := es[|es| - 1];
    if HasUpdate(e) then false else HasDst(e) || Sampled(es[..|es| - 1])
  }

  /** A destination edge falls between any two updates. */
  predicate Spaced<C>(es: seq<Edge<C>>) {
    es != [] ==> Spaced(es[..|es| - 1]) && (HasUpdate(es[|es| - 1]) ==> Sampled(es[..|es| - 1]))
  }

  function B(b: bool): nat { if b then 1 else 0 }

  /** Changes of the toggle that the destination has not acted on yet. */
  function InFlight<C>(s: Sync<C>): nat {
    B(s.toggle != s.meta) + B(s.meta != s.sync) + B(s.sync != s.syncD)
  }

  function LastHeld<C>(zero: C, updates: seq<C>): C {
    if updates == [] then zero else updates[|updates| - 1]
  }

  /** Every update has been delivered as a pulse or is still on its way. */
  predicate Conserved<C>(t: Trace<C>) {
    |t.updates| == t.pulses + InFlight(t.s)
  }

  ghost predicate Inv<C>(zero: C, es: seq<Edge<C>>, t: Trace<C>) {
    && (Sampled(es) ==> t.s.toggle == t.s.meta)
    && Conserved(t)
    && (InFlight(t.s) == 0 ==> t.s.data == t.s.hold)
    && t.s.hold == LastHeld(zero, t.updates)
  }

  /** When updates are spaced, each one is either delivered as a pulse or still on its way. */
  lemma {:induction false} UpdatesConserved<C>(zero: C, es: seq<Edge<C>>)
    requires Spaced(es)
    ensures Inv(zero, es, Run(zero, es))
  {
    if es != [] {
      UpdatesConserved(zero, es[..|es| - 1]);
    }
  }

  lemma RunExtend<C>(zero: C, es: seq<Edge<C>>, e: Edge<C>)
    ensures Run(zero, es + [e]) == Advance(Run(zero, es), e)
    ensures !HasUpdate(e) && Spaced(es) ==> Spaced(es + [e])
  {
    assert (es + [e])[..|es|] == es;
  }

  predicate NoUpdates<C>(es: seq<Edge<C>>) {
    forall i :: 0 <= i < |es| ==> !HasUpdate(es[i])
  }

  function DstCount<C>(es: seq<Edge<C>>): nat {
    if es == [] then 0 else DstCount(es[..|es| - 1]) + B(HasDst(es[|es| - 1]))
  }

  /** How far the last toggle has come, by destination edges since the last update. */
  ghost predicate Progress<C>(s: Sync<C>, since: nat) {
    && (since >= 1 ==> s.toggle == s.meta)
    && (since >= 2 ==> s.meta == s.sync)
    && (since >= 3 ==> s.sync == s.syncD)
  }

  lemma {:induction false} QuietTail<C>(zero: C, es: seq<Edge<C>>, tail: seq<Edge<C>>)
    requires Spaced(es) && NoUpdates(tail)
    ensures Spaced(es + tail) && Run(zero, es + tail).updates == Run(zero, es).updates
    ensures Progress(Run(zero, es + tail).s, DstCount(tail))
  {
    if tail == [] {
      assert es + tail == es;
    } else {
      var init, e := tail[..|tail| - 1], tail[|tail| - 1];
      QuietTail(zero, es, init);
      assert es + tail == es + init + [e];
      RunExtend(zero, es + init, e);
    }
  }

  /**
   Once three destination edges have fallen without a new update, whatever source edges lie between them, everything
   is delivered and the destination holds the last held value.
   */
  lemma QuietConverges<C>(zero: C, es: seq<Edge<C>>, tail: seq<Edge<C>>)
    requires Spaced(es) && NoUpdates(tail) && DstCount(tail) >= 3
    ensures var t := Run(zero, es + tail);
            && t.s.data == t.s.hold == LastHeld(zero, t.updates)
            && t.updates == Run(zero, es).updates
            && t.pulses == |t.updates| && InFlight(t.s) == 0
  {
    QuietTail(zero, es, tail);
    UpdatesConserved(zero, es + tail);
  }

  // ---- exactly when updates are conserved ------------------------------------------------------------

  /** The update flips the toggle back before the destination saw it: two changes are lost. */
  predicate Swallows<C>(s: Sync<C>, e: Edge<C>) {
    HasUpdate(e) && s.toggle != s.meta && (e.Src? || e.seesNew)
  }

  function Swallowed<C>(zero: C, es: seq<Edge<C>>): nat {
    if es == [] then 0
    else
      var init := es[..|es| - 1];
      Swallowed(zero, init) + B(Swallows(Run(zero, init).s, es[|es| - 1]))
  }

  /** In every run, spaced or not, each swallowing costs exactly two updates. */
  lemma {:induction false} UpdatesAccounted<C>(zero: C, es: seq<Edge<C>>)
    ensures var t := Run(zero, es); |t.updates| == t.pulses + InFlight(t.s) + 2 * Swallowed(zero, es)
    ensures Conserved(Run(zero, es)) <==> Swallowed(zero, es) == 0
  {
    if es != [] {
      UpdatesAccounted(zero, es[..|es| - 1]);
    }
  }

  /** The same clock edges and updates, whatever the flip-flops capture. */
  ghost predicate SameEdge<C>(d: Edge<C>, e: Edge<C>) {
    match d
    case Src(u) => e == Src(u)
    case Dst => e.Dst?
    case Both(u, _, _) => e.Both? && e.update == u
  }

  ghost predicate SameClocks<C>(ds: seq<Edge<C>>, es: seq<Edge<C>>) {
    |ds| == |es| && forall i :: 0 <= i < |ds| ==> SameEdge(ds[i], es[i])
  }

  lemma {:induction false} SpacingIsOfClocks<C>(ds: seq<Edge<C>>, es: seq<Edge<C>>)
    requires SameClocks(ds, es)
    ensures Sampled(ds) == Sampled(es) && Spaced(ds) == Spaced(es)
  {
    if ds != [] {
      assert SameEdge(ds[|ds| - 1], es[|es| - 1]);
      SpacingIsOfClocks(ds[..|ds| - 1], es[..|es| - 1]);
    }
  }

  /** The captures that lose the most: late for an update that keeps its distance, early for one that does not. */
  function Worst<C>(es: seq<Edge<C>>): (ws: seq<Edge<C>>)
    ensures SameClocks(es, ws)
  {
    if es == [] then []
    else
      var init, e := es[..|es| - 1], es[|es| - 1];
      Worst(init) + [if e.Both? then e.(seesNew := HasUpdate(e) && !Sampled(init)) else e]
  }

  lemma WorstExtend<C>(zero: C, es: seq<Edge<C>>, e: Edge<C>)
    requires es != [] && e == Worst(es)[|es| - 1]
    ensures Run(zero, Worst(es)) == Advance(Run(zero, Worst(es[..|es| - 1])), e)
    ensures Swallowed(zero, Worst(es)) ==
            Swallowed(zero, Worst(es[..|es| - 1])) + B(Swallows(Run(zero, Worst(es[..|es| - 1])).s, e))
  {
    assert Worst(es)[..|es| - 1] == Worst(es[..|es| - 1]);
  }

  /** An update that the destination has not sampled leaves the toggle ahead of the first flip-flop. */
  lemma {:induction false} UnsampledIsAhead<C>(zero: C, es: seq<Edge<C>>)
    requires Spaced(es) && !Sampled(es)
    ensures Run(zero, Worst(es)).s.toggle != Run(zero, Worst(es)).s.meta
  {
    var init, e := es[..|es| - 1], es[|es| - 1];
    WorstExtend(zero, es, Worst(es)[|es| - 1]);
    if HasUpdate(e) {
      SpacingIsOfClocks(init, Worst(init));
      UpdatesConserved(zero, Worst(init));
    } else {
      UnsampledIsAhead(zero, init);
    }
  }

  lemma {:induction false} UnspacedSwallows<C>(zero: C, es: seq<Edge<C>>)
    requires !Spaced(es)
    ensures Swallowed(zero, Worst(es)) > 0
  {
    var init := es[..|es| - 1];
    WorstExtend(zero, es, Worst(es)[|es| - 1]);
    if Spaced(init) {
      UnsampledIsAhead(zero, init);
    } else {
      UnspacedSwallows(zero, init);
    }
  }

  /**
   A destination edge between any two updates is exactly what it takes: only then are updates conserved
   whatever the flip-flops capture.
   */
  lemma SpacedIffAlwaysConserved<C>(zero: C, es: seq<Edge<C>>)
    ensures Spaced(es) <==> forall ds :: SameClocks(es, ds) ==> Conserved(Run(zero, ds))
  {
    if Spaced(es) {
      forall ds | SameClocks(es, ds)
        ensures Conserved(Run(zero, ds))
      {
        SpacingIsOfClocks(es, ds);
        UpdatesConserved(zero, ds);
      }
    } else {
      UnspacedSwallows(zero, es);
      UpdatesAccounted(zero, Worst(es));
      assert SameClocks(es, Worst(es)) && !Conserved(Run(zero, Worst(es)));
    }
  }

  /** Two updates between destination edges: neither arrives. */
  lemma UnspacedUpdatesVanish<C>(zero: C, a: C, b: C)
    requires b != zero
    ensures var es: seq<Edge<C>> := [Src(Some(a))] + [Src(Some(b))];
            && !Spaced(es)
            && var t := Run(zero, es + [Dst] + [Dst] + [Dst]); t.s.hold == b && t.s.data == zero && t.pulses == 0
  {
    var e0: seq<Edge<C>> := [];
    RunExtend(zero, e0, Src(Some(a)));
    assert e0 + [Src(Some(a))] == [Src(Some(a))];
    var es: seq<Edge<C>> := [Src(Some(a))] + [Src(Some(b))];
    assert es[..1] == [Src(Some(a))];
    RunExtend(zero, [Src(Some(a))], Src(Some(b)));
    RunExtend(zero, es, Dst);
    RunExtend(zero, es + [Dst], Dst);
    RunExtend(zero, es + [Dst] + [Dst], Dst);
  }

  // ---- whole words ------------------------------------------------------------------------------------

  /** Destination edges after the edge of the last update; as many as needed if there was none. */
  function DstSince<C>(es: seq<Edge<C>>): nat {
    if es == [] then 3
    else
      var e := es[|es| - 1];
      if HasUpdate(e) then 0 else DstSince(es[..|es| - 1]) + B(HasDst(e))
  }

  /** At least `n` destination edges fall strictly between any two updates. */
  predicate SpacedBy<C>(es: seq<Edge<C>>, n: nat) {
    es != [] ==> SpacedBy(es[..|es| - 1], n) && (HasUpdate(es[|es| - 1]) ==> DstSince(es[..|es| - 1]) >= n)
  }

  /** The held word changes at the very edge that copies it. */
  predicate Tears<C>(s: Sync<C>, e: Edge<C>) {
    e.Both? && HasUpdate(e) && Pulse(s)
  }

  predicate Torn<C>(zero: C, es: seq<Edge<C>>) {
    es != [] && (Torn(zero, es[..|es| - 1]) || Tears(Run(zero, es[..|es| - 1]).s, es[|es| - 1]))
  }

  /** In every run in which no copy coincides with an update, the destination holds one whole value of the source. */
  lemma {:induction false} UntornDataIsOneUpdate<C>(zero: C, es: seq<Edge<C>>)
    requires !Torn(zero, es)
    ensures var t := Run(zero, es);
            && (t.s.hold == zero || t.s.hold in t.updates)
            && (t.s.data == zero || t.s.data in t.updates)
  {
    if es != [] {
      UntornDataIsOneUpdate(zero, es[..|es| - 1]);
    }
  }

  /** An edge that tears can leave any word whatever. */
  lemma TearTakesAnything<C>(zero: C, es: seq<Edge<C>>, e: Edge<C>, word: C)
    requires Tears(Run(zero, es).s, e)
    ensures Run(zero, es + [e.(word := word)]).s.data == word
  {
    RunExtend(zero, es, e.(word := word));
  }

  ghost predicate Whole<C>(zero: C, t: Trace<C>) {
    t.s.data == zero || t.s.data in t.updates
  }

  /** The destination holds one whole value all the time. */
  ghost predicate AlwaysWhole<C>(zero: C, es: seq<Edge<C>>) {
    forall n :: 0 <= n <= |es| ==> Whole(zero, Run(zero, es[..n]))
  }

  ghost predicate SameButWord<C>(d: Edge<C>, e: Edge<C>) {
    d == e || (d.Both? && e.Both? && d.update == e.update && d.seesNew == e.seesNew)
  }

  /** The same edges, updates and captured toggles, whatever words are captured. */
  ghost predicate SameButWords<C>(ds: seq<Edge<C>>, es: seq<Edge<C>>) {
    |ds| == |es| && forall i :: 0 <= i < |ds| ==> SameButWord(ds[i], es[i])
  }

  /** Equal but for the destination's word. */
  ghost predicate Alike<C>(a: Trace<C>, b: Trace<C>) {
    && a.s.hold == b.s.hold && a.s.toggle == b.s.toggle && a.s.meta == b.s.meta && a.s.sync == b.s.sync
    && a.s.syncD == b.s.syncD && a.updates == b.updates
  }

  lemma AlikeBoth<C>(a: Trace<C>, b: Trace<C>, d: Edge<C>, e: Edge<C>)
    requires Alike(a, b) && d.Both? && e.Both? && d.update == e.update && d.seesNew == e.seesNew
    ensures Alike(Advance(a, d), Advance(b, e)) && Tears(a.s, d) == Tears(b.s, e)
  {
  }

  lemma AlikeStep<C>(a: Trace<C>, b: Trace<C>, d: Edge<C>, e: Edge<C>)
    requires Alike(a, b) && SameButWord(d, e)
    ensures Alike(Advance(a, d), Advance(b, e)) && Tears(a.s, d) == Tears(b.s, e)
  {
    if d.Both? {
      AlikeBoth(a, b, d, e);
    }
  }

  lemma {:induction false} WordsDoNotSteer<C>(zero: C, ds: seq<Edge<C>>, es: seq<Edge<C>>)
    requires SameButWords(ds, es)
    ensures Alike(Run(zero, ds), Run(zero, es)) && Torn(zero, ds) == Torn(zero, es)
  {
    if ds != [] {
      var n := |ds| - 1;
      assert SameButWord(ds[n], es[n]);
      WordsDoNotSteer(zero, ds[..n], es[..n]);
      AlikeStep(Run(zero, ds[..n]), Run(zero, es[..n]), ds[n], es[n]);
    }
  }

  lemma {:induction false} PrefixFacts<C>(zero: C, es: seq<Edge<C>>, n: nat)
    requires n <= |es|
    ensures Torn(zero, es[..n]) ==> Torn(zero, es)
    ensures Run(zero, es[..n]).updates <= Run(zero, es).updates
    decreases |es|
  {
    if n < |es| {
      PrefixFacts(zero, es[..|es| - 1], n);
      assert es[..|es| - 1][..n] == es[..n];
    } else {
      assert es[..n] == es;
    }
  }

  lemma {:induction false} TornSomewhere<C>(zero: C, es: seq<Edge<C>>) returns (n: nat)
    requires Torn(zero, es)
    ensures n < |es| && Tears(Run(zero, es[..n]).s, es[n])
  {
    var init := es[..|es| - 1];
    if Torn(zero, init) {
      n := TornSomewhere(zero, init);
      assert init[..n] == es[..n];
    } else {
      n := |es| - 1;
    }
  }

  /** One run with other words captured, in which the destination holds a word that the source never held. */
  lemma TornRunIsNotWhole<C>(zero: C, es: seq<Edge<C>>, word: C) returns (ds: seq<Edge<C>>)
    requires Torn(zero, es) && word != zero && word !in Run(zero, es).updates
    ensures SameButWords(ds, es) && !AlwaysWhole(zero, ds)
  {
    var n := TornSomewhere(zero, es);
    ds := es[n := es[n].(word := word)];
    TearTakesAnything(zero, es[..n], es[n], word);
    assert ds[..n + 1] == es[..n] + [es[n].(word := word)];
    WordsDoNotSteer(zero, ds, es);
    PrefixFacts(zero, ds, n + 1);
    assert !Whole(zero, Run(zero, ds[..n + 1]));
  }

  /** The destination holds one whole value, whatever words are captured, exactly when no update falls on a copy. */
  lemma WholeForEveryWordIff<C>(zero: C, es: seq<Edge<C>>, word: C)
    requires word != zero && word !in Run(zero, es).updates
    ensures !Torn(zero, es) <==> forall ds :: SameButWords(ds, es) ==> AlwaysWhole(zero, ds)
  {
    if Torn(zero, es) {
      var ds := TornRunIsNotWhole(zero, es, word);
    } else {
      forall ds | SameButWords(ds, es)
        ensures AlwaysWhole(zero, ds)
      {
        WordsDoNotSteer(zero, ds, es);
        forall n | 0 <= n <= |ds|
          ensures Whole(zero, Run(zero, ds[..n]))
        {
          PrefixFacts(zero, ds, n);
          UntornDataIsOneUpdate(zero, ds[..n]);
        }
      }
    }
  }

  /** With three destination edges between updates no copy coincides with an update. */
  lemma {:induction false} ThreeEdgesNeverTear<C>(zero: C, es: seq<Edge<C>>)
    requires SpacedBy(es, 3)
    ensures !Torn(zero, es) && Progress(Run(zero, es).s, DstSince(es))
  {
    if es != [] {
      ThreeEdgesNeverTear(zero, es[..|es| - 1]);
    }
  }

  /** So with three destination edges between updates the destination always holds one whole value. */
  lemma DataIsOneUpdate<C>(zero: C, es: seq<Edge<C>>)
    requires SpacedBy(es, 3)
    ensures var t := Run(zero, es); t.s.data == zero || t.s.data in t.updates
  {
    ThreeEdgesNeverTear(zero, es);
    UntornDataIsOneUpdate(zero, es);
  }

  /** Two are not enough: the second update changes the word as it is copied, and any mix can be left. */
  lemma TwoEdgesCanTear<C>(zero: C, a: C, b: C, word: C)
    ensures var es: seq<Edge<C>> := [Src(Some(a)), Dst, Dst, Both(Some(b), false, word)];
            SpacedBy(es, 2) && Spaced(es) && Run(zero, es).s.data == word
  {
    var es: seq<Edge<C>> := [Src(Some(a)), Dst, Dst, Both(Some(b), false, word)];
    var e1, e2, e3 := es[..1], es[..2], es[..3];
    assert e1[..0] == [] && e2[..1] == e1 && e3[..2] == e2 && es[..3] == e3;
    assert Run(zero, e1).s == Sync(a, true, false, false, false, zero);
    assert Run(zero, e2).s == Sync(a, true, true, false, false, zero);
    assert Run(zero, e3).s == Sync(a, true, true, true, false, zero);
    assert DstSince(e1) == 0 && DstSince(e2) == 1 && DstSince(e3) == 2;
    assert SpacedBy(e1, 2) && SpacedBy(e2, 2) && SpacedBy(e3, 2);
    assert Spaced(e1) && Spaced(e2) && Spaced(e3);
  }

  /** The registers, updated in place by the two clocks. */
  class ConfigSynchroniser<C> {
    const zero: C
    var srcHold: C
    var srcToggle: bool
    var dstMeta: bool
    var dstSync: bool
    var dstSyncD: bool
    var dstData: C

    ghost function Regs(): Sync<C>
      reads this
    {
      Sync(srcHold, srcToggle, dstMeta, dstSync, dstSyncD, dstData)
    }

    constructor (zero: C)
      ensures Regs() == Reset(zero) && this.zero == zero
    {
      this.zero := zero;
      srcHold, srcToggle := zero, false;
      dstMeta, dstSync, dstSyncD, dstData := false, false, false, zero;
    }

    method SrcClock(rst: bool, u: Option<C>)
      modifies this`srcHold, this`srcToggle
      ensures Regs() == if rst then old(Regs()).(hold := zero, toggle := false) else SrcNext(old(Regs()), u)
    {
      if rst {
        srcHold, srcToggle := zero, false;
      } else if u.Some? {
        srcHold := u.value;
        srcToggle := !srcToggle;
      }
    }

    method DstClock(rst: bool, seen: bool, word: C)
      modifies this`dstMeta, this`dstSync, this`dstSyncD, this`dstData
      ensures Regs() == if rst then Reset(zero).(hold := srcHold, toggle := srcToggle) else DstNext(old(Regs()),
              seen, word)
    {
      if rst {
        dstMeta, dstSync, dstSyncD, dstData := false, false, false, zero;
      } else {
        if dstSync != dstSyncD {
          dstData := word;
        }
        dstSyncD := dstSync;
        dstSync := dstMeta;
        dstMeta := seen;
      }
    }

    /** One edge of either clock or of both, out of reset. */
    method Tick(e: Edge<C>)
      modifies this
      ensures Regs() == Next(old(Regs()), e)
    {
      match e
      case Src(u) => SrcClock(false, u);
      case Dst => DstClock(false, srcToggle, srcHold);
      case Both(u, seesNew, word) =>
        var hold, toggle := srcHold, srcToggle;
        SrcClock(false, u);
        DstClock(false, if seesNew then srcToggle else toggle, if u.Some? then word else hold);
    }
  }
}
