/**
 The register between the down-converter and the packetizer, which keeps or counts every sample.
 */
module DdcOutput {
  import opened Modular
  import opened Options
  import P = IqPacketizer

  /** The register between the DDC and the packetizer, with its two counters. */
  datatype Output = Output(tdata: nat, tvalid: bool, overflowCount: nat, sampleCount: nat)

  function Reset(): Output {
    Output(0, false, 0, 0)
  }

  /** `load_output`: the register is free or being emptied. */
  predicate Loads(d: Output, tready: bool) { !d.tvalid || tready }

  /** One clock edge; `sat` is the saturated sample, if one is valid. */
  function Step(d: Output, sat: Option<nat>, tready: bool): Output {
    var q := if d.tvalid && tready then d.(tvalid := false) else d;
    if sat.None? then q
    else if Loads(d, tready) then q.(tdata := sat.value, tvalid := true, sampleCount := (q.sampleCount + 1) % WORD)
    else q.(overflowCount := (q.overflowCount + 1) % WORD)
  }

  datatype In = In(sat: Option<nat>, tready: bool)

  /** A run: the saturated samples, each marked kept or refused, and those handed over. */
  datatype Trace = Trace(d: Output, samples: seq<(nat, bool)>, handed: seq<nat>)

  function Advance(t: Trace, i: In): Trace {
    Trace(
      Step(t.d, i.sat, i.tready),
      t.samples + (if i.sat.Some? then [(i.sat.value, Loads(t.d, i.tready))] else []),
      t.handed + (if t.d.tvalid && i.tready then [t.d.tdata] else []))
  }

  function Run(ins: seq<In>): Trace {
    if ins == [] then Trace(Reset(), [], []) else Advance(Run(ins[..|ins| - 1]), ins[|ins| - 1])
  }

  function Kept(samples: seq<(nat, bool)>): seq<nat> {
    if samples == [] then []
    else Kept(samples[..|samples| - 1]) + if samples[|samples| - 1].1 then [samples[|samples| - 1].0] else []
  }

  function Refused(samples: seq<(nat, bool)>): nat {
    if samples == [] then 0
    else Refused(samples[..|samples| - 1]) + if samples[|samples| - 1].1 then 0 else 1
  }

  function Waiting(d: Output): seq<nat> {
    if d.tvalid then [d.tdata] else []
  }

  lemma SamplesAppend(samples: seq<(nat, bool)>, s: (nat, bool))
    ensures Kept(samples + [s]) == Kept(samples) + if s.1 then [s.0] else []
    ensures Refused(samples + [s]) == Refused(samples) + if s.1 then 0 else 1
  {
    assert (samples + [s])[..|samples|] == samples;
  }

  ghost predicate Accounted(t: Trace) {
    && t.handed + Waiting(t.d) == Kept(t.samples)
    && |t.samples| == |Kept(t.samples)| + Refused(t.samples)
    && t.d.sampleCount == |Kept(t.samples)| % WORD
    && t.d.overflowCount == Refused(t.samples) % WORD
  }

  lemma GapAccounted(t: Trace, i: In)
    requires Accounted(t) && i.sat.None?
    ensures Accounted(Advance(t, i))
  {
    assert Advance(t, i).samples == t.samples;
  }

  lemma KeptAccounted(t: Trace, i: In)
    requires Accounted(t) && i.sat.Some? && Loads(t.d, i.tready)
    ensures Accounted(Advance(t, i))
  {
    SamplesAppend(t.samples, (i.sat.value, true));
    ModAddLeft(|Kept(t.samples)|, 1, WORD);
  }

  lemma RefusedAccounted(t: Trace, i: In)
    requires Accounted(t) && i.sat.Some? && !Loads(t.d, i.tready)
    ensures Accounted(Advance(t, i))
  {
    SamplesAppend(t.samples, (i.sat.value, false));
    ModAddLeft(Refused(t.samples), 1, WORD);
  }

  lemma StepAccounted(t: Trace, i: In)
    requires Accounted(t)
    ensures Accounted(Advance(t, i))
  {
    if i.sat.None? {
      GapAccounted(t, i);
    } else if Loads(t.d, i.tready) {
      KeptAccounted(t, i);
    } else {
      RefusedAccounted(t, i);
    }
  }

  /**
   Conservation, in every run: each saturated sample is kept or counted as an overflow, and the kept
   ones reach the packetizer once each and in order, at most one of them still waiting.
   */
  lemma {:induction false} EverySampleAccountedFor(ins: seq<In>)
    ensures Accounted(Run(ins))
  {
    if ins == [] {
      ModSmall(0, WORD);
    } else {
      EverySampleAccountedFor(ins[..|ins| - 1]);
      StepAccounted(Run(ins[..|ins| - 1]), ins[|ins| - 1]);
    }
  }

  // ---- the register in front of the packetizer ------------------------------------------------------

  /** The register and the packetizer behind it, and the cycles since the last saturated sample. */
  datatype Pair = Pair(d: Output, p: P.Packetizer, age: nat)

  /** One cycle of an enabled stream with the sink always ready: a sample or none, and the reconfiguration strobe. */
  datatype Cycle = Cycle(sat: Option<nat>, settings: P.Settings, strobe: bool)

  function PairStep(k: P.Params, s: Pair, c: Cycle): Pair {
    var i := P.In(true, c.strobe, s.d.tdata, s.d.tvalid, 0, c.settings, true);
    Pair(Step(s.d, c.sat, P.InReady(s.p, i)), P.Step(k, s.p, i), if c.sat.Some? then 1 else s.age + 1)
  }

  function PairRun(k: P.Params, s: Pair, cs: seq<Cycle>): Pair {
    if cs == [] then s else PairStep(k, PairRun(k, s, cs[..|cs| - 1]), cs[|cs| - 1])
  }

  /** A saturated sample comes at least `gap` cycles after the one before it. */
  predicate Apart(k: P.Params, s: Pair, cs: seq<Cycle>, gap: nat) {
    cs != [] ==>
      && Apart(k, s, cs[..|cs| - 1], gap)
      && (cs[|cs| - 1].sat.Some? ==> PairRun(k, s, cs[..|cs| - 1]).age >= gap)
  }

  predicate Steady(cs: seq<Cycle>) {
    forall i :: 0 <= i < |cs| ==> !cs[i].strobe
  }

  /** Steady cycles with samples at least `gap` apart. */
  predicate Regular(k: P.Params, s: Pair, cs: seq<Cycle>, gap: nat) {
    Steady(cs) && Apart(k, s, cs, gap)
  }

  lemma {:induction false} RunConcat(k: P.Params, s: Pair, a: seq<Cycle>, b: seq<Cycle>, gap: nat)
    ensures PairRun(k, s, a + b) == PairRun(k, PairRun(k, s, a), b)
    ensures Apart(k, s, a, gap) && Apart(k, PairRun(k, s, a), b, gap) ==> Apart(k, s, a + b, gap)
  {
    if b == [] {
      assert a + b == a;
    } else {
      assert (a + b)[..|a + b| - 1] == a + b[..|b| - 1];
      RunConcat(k, s, a, b[..|b| - 1], gap);
    }
  }

  lemma RegularConcat(k: P.Params, s: Pair, a: seq<Cycle>, t: Pair, b: seq<Cycle>, gap: nat)
    requires Regular(k, s, a, gap) && t == PairRun(k, s, a) && Regular(k, t, b, gap)
    ensures Regular(k, s, a + b, gap) && PairRun(k, s, a + b) == PairRun(k, t, b)
  {
    RunConcat(k, s, a, b, gap);
  }

  lemma {:induction false} ApartWeakens(k: P.Params, s: Pair, cs: seq<Cycle>, gap: nat, less: nat)
    requires Apart(k, s, cs, gap) && less <= gap
    ensures Apart(k, s, cs, less)
  {
    if cs != [] {
      ApartWeakens(k, s, cs[..|cs| - 1], gap, less);
    }
  }

  /** Cycles until the packetizer next accepts a sample when its output never stalls. */
  function UntilReady(p: P.Packetizer): int {
    match p.phase
    case Idle => 17
    case Header => 16 - p.headerIndex
    case Payload => 0
  }

  predicate WellPlaced(p: P.Packetizer) {
    p.headerIndex < 16
  }

  /** A held sample is taken at once, or before one that comes `gap` cycles after it. */
  predicate InTime(s: Pair, gap: nat) {
    s.d.tvalid ==> s.p.phase.Payload? || UntilReady(s.p) + s.age <= gap
  }

  lemma StepInTime(k: P.Params, s: Pair, c: Cycle)
    requires WellPlaced(s.p) && InTime(s, 18) && !c.strobe && (c.sat.Some? ==> s.age >= 18)
    ensures var s' := PairStep(k, s, c);
            WellPlaced(s'.p) && InTime(s', 18) && s'.d.overflowCount == s.d.overflowCount
  {
  }

  /**
   With an always-ready sink and samples at least 18 cycles apart no sample is refused, although the
   packetizer takes no input during its 17 IDLE and HEADER cycles.
   */
  lemma {:induction false} NoOverflowWhenApart(k: P.Params, s: Pair, cs: seq<Cycle>)
    requires WellPlaced(s.p) && InTime(s, 18) && Regular(k, s, cs, 18)
    ensures var s' := PairRun(k, s, cs);
            WellPlaced(s'.p) && InTime(s', 18) && s'.d.overflowCount == s.d.overflowCount
  {
    if cs != [] {
      NoOverflowWhenApart(k, s, cs[..|cs| - 1]);
      StepInTime(k, PairRun(k, s, cs[..|cs| - 1]), cs[|cs| - 1]);
    }
  }

  // ---- exactly which starts are safe -------------------------------------------------------------------

  function Gaps(n: nat, cfg: P.Settings): (cs: seq<Cycle>)
    ensures |cs| == n && Steady(cs)
  {
    if n == 0 then [] else Gaps(n - 1, cfg) + [Cycle(None, cfg, false)]
  }

  lemma {:induction false} GapsAreApart(k: P.Params, s: Pair, n: nat, cfg: P.Settings, gap: nat)
    ensures Apart(k, s, Gaps(n, cfg), gap)
  {
    if n > 0 {
      GapsAreApart(k, s, n - 1, cfg, gap);
      assert Gaps(n, cfg)[..n - 1] == Gaps(n - 1, cfg);
    }
  }

  predicate Waits(s: Pair, t: Pair, n: nat) {
    && t.d == s.d && t.age == s.age + n && WellPlaced(t.p) && UntilReady(t.p) == UntilReady(s.p) - n
    && (s.p.payloadCount == 0 ==> t.p.payloadCount == 0)
  }

  lemma WaitStep(k: P.Params, s: Pair, cfg: P.Settings)
    requires WellPlaced(s.p) && s.d.tvalid && UntilReady(s.p) > 0
    ensures Waits(s, PairStep(k, s, Cycle(None, cfg, false)), 1)
  {
  }

  /** A held sample waits, cycle by cycle, for the packetizer. */
  lemma {:induction false} HeldWaits(k: P.Params, s: Pair, n: nat, cfg: P.Settings)
    requires WellPlaced(s.p) && s.d.tvalid && n <= UntilReady(s.p)
    ensures Waits(s, PairRun(k, s, Gaps(n, cfg)), n)
  {
    if n > 0 {
      HeldWaits(k, s, n - 1, cfg);
      assert Gaps(n, cfg)[..n - 1] == Gaps(n - 1, cfg);
      WaitStep(k, PairRun(k, s, Gaps(n - 1, cfg)), cfg);
    }
  }

  /** `n` gaps and a sample, which comes too early for the one that is held. */
  lemma EarlySampleIsRefused(k: P.Params, s: Pair, n: nat, c: Cycle, gap: nat) returns (cs: seq<Cycle>)
    requires WellPlaced(s.p) && s.d.tvalid && n < UntilReady(s.p) && s.age + n >= gap && c.sat.Some? && !c.strobe
    ensures cs == Gaps(n, c.settings) + [c] && Regular(k, s, cs, gap)
    ensures PairRun(k, s, cs).d.overflowCount == (s.d.overflowCount + 1) % WORD
  {
    var gaps := Gaps(n, c.settings);
    HeldWaits(k, s, n, c.settings);
    GapsAreApart(k, s, n, c.settings, gap);
    RunConcat(k, s, gaps, [c], gap);
    cs := gaps + [c];
    assert cs[..n] == gaps;
  }

  /** The same, with nothing said about the cycles but that they are regular. */
  lemma SomeSampleIsRefused(k: P.Params, s: Pair, n: nat, c: Cycle, gap: nat) returns (cs: seq<Cycle>)
    requires WellPlaced(s.p) && s.d.tvalid && n < UntilReady(s.p) && s.age + n >= gap && c.sat.Some? && !c.strobe
    ensures Regular(k, s, cs, gap) && PairRun(k, s, cs).d.overflowCount == (s.d.overflowCount + 1) % WORD
  {
    cs := EarlySampleIsRefused(k, s, n, c, gap);
  }

  /** The stream keeps all samples 18 cycles apart exactly from the starts that are in time. */
  lemma SafeStartsAreInTime(k: P.Params, s: Pair)
    requires WellPlaced(s.p) && s.d.overflowCount < WORD
    ensures InTime(s, 18) <==>
            forall cs :: Regular(k, s, cs, 18) ==> PairRun(k, s, cs).d.overflowCount == s.d.overflowCount
  {
    if InTime(s, 18) {
      forall cs | Regular(k, s, cs, 18)
        ensures PairRun(k, s, cs).d.overflowCount == s.d.overflowCount
      {
        NoOverflowWhenApart(k, s, cs);
      }
    } else {
      var n := if s.age >= 18 then 0 else 18 - s.age;
      var cs := SomeSampleIsRefused(k, s, n, Cycle(Some(0), s.p.latched, false), 18);
    }
  }

  /** A start after reset, with the first sample free to come at once. */
  function Fresh(gap: nat): Pair {
    Pair(Reset(), P.Reset(), gap + 18)
  }

  /** The first sample after reset is held through the header. */
  lemma FirstSampleHeld(k: P.Params, c: Cycle, gap: nat)
    requires c.sat.Some? && !c.strobe
    ensures var s := PairRun(k, Fresh(gap), [c]);
            && s.d == Output(c.sat.value, true, 0, 1) && s.age == 1
            && s.p.phase.Header? && s.p.headerIndex == 0 && s.p.payloadCount == 0
            && Apart(k, Fresh(gap), [c], gap + 18)
  {
    assert [c][..0] == [];
  }

  /**
   A start that is not in time does occur: a strobe one cycle after a sample. Then a sample is refused although
   all samples are 18 cycles apart.
   */
  lemma StrobeLosesSample(k: P.Params, cfg: P.Settings, x: nat, y: nat) returns (cs: seq<Cycle>)
    ensures cs == [Cycle(Some(x), cfg, false)] + [Cycle(None, cfg, true)] + (Gaps(16, cfg) + [Cycle(Some(y), cfg,
            false)])
    ensures Apart(k, Fresh(0), cs, 18) && PairRun(k, Fresh(0), cs).d.overflowCount == 1
  {
    var first, strobe, last := Cycle(Some(x), cfg, false), Cycle(None, cfg, true), Cycle(Some(y), cfg, false);
    FirstSampleHeld(k, first, 0);
    var s1 := PairRun(k, Fresh(0), [first]);
    RunConcat(k, Fresh(0), [first], [strobe], 18);
    assert [strobe][..0] == [];
    var s2 := PairRun(k, s1, [strobe]);
    assert s2.p.phase.Idle? && s2.d == s1.d && s2.age == 2;
    var rest := EarlySampleIsRefused(k, s2, 16, last, 18);
    RunConcat(k, Fresh(0), [first] + [strobe], rest, 18);
    cs := [first] + [strobe] + rest;
  }

  // ---- exactly which spacing is safe from reset -----------------------------------------------------------

  /** In packets of one sample each sample costs 18 cycles; otherwise only the first 17 count. */
  function SafeGap(k: P.Params): nat {
    if k.frameSamples == 1 then 18 else 17
  }

  /** A sample that waited in the register is the first of its packet. */
  predicate FirstWaits(s: Pair) {
    && InTime(s, 17)
    && (!s.p.phase.Payload? ==> s.p.payloadCount == 0)
    && (s.p.phase.Payload? && s.d.tvalid && s.age >= 2 ==> s.p.payloadCount == 0)
  }

  lemma StepFirstWaits(k: P.Params, s: Pair, c: Cycle)
    requires k.frameSamples >= 2 && WellPlaced(s.p) && FirstWaits(s) && !c.strobe && (c.sat.Some? ==> s.age >= 17)
    ensures var s' := PairStep(k, s, c);
            WellPlaced(s'.p) && FirstWaits(s') && s'.d.overflowCount == s.d.overflowCount
  {
  }

  lemma {:induction false} SeventeenIsEnough(k: P.Params, s: Pair, cs: seq<Cycle>)
    requires k.frameSamples >= 2 && WellPlaced(s.p) && FirstWaits(s) && Regular(k, s, cs, 17)
    ensures var s' := PairRun(k, s, cs);
            WellPlaced(s'.p) && FirstWaits(s') && s'.d.overflowCount == s.d.overflowCount
  {
    if cs != [] {
      SeventeenIsEnough(k, s, cs[..|cs| - 1]);
      StepFirstWaits(k, PairRun(k, s, cs[..|cs| - 1]), cs[|cs| - 1]);
    }
  }

  /** From reset, a second sample 16 cycles after the first is refused. */
  lemma SixteenIsTooClose(k: P.Params, c: Cycle, gap: nat) returns (cs: seq<Cycle>)
    requires c.sat.Some? && !c.strobe
    ensures Regular(k, Fresh(gap), cs, 16) && PairRun(k, Fresh(gap), cs).d.overflowCount == 1
  {
    FirstSampleHeld(k, c, gap);
    ApartWeakens(k, Fresh(gap), [c], gap + 18, 16);
    var rest := SomeSampleIsRefused(k, PairRun(k, Fresh(gap), [c]), 15, c, 16);
    RunConcat(k, Fresh(gap), [c], rest, 16);
    cs := [c] + rest;
  }

  /** A sample that comes as the one-sample packet closes is held from the very start of the next. */
  lemma SampleAtClosing(k: P.Params, s: Pair, c: Cycle)
    requires k.frameSamples == 1 && s.d.tvalid && s.p.phase.Payload? && s.p.payloadCount == 0 && WellPlaced(s.p)
    requires s.age == 17 && c.sat.Some? && !c.strobe
    ensures var t := PairRun(k, s, [c]);
            t.d.tvalid && t.p.phase.Idle? && t.age == 1 && WellPlaced(t.p) && t.d.overflowCount == s.d.overflowCount
    ensures Apart(k, s, [c], 17)
  {
    assert [c][..0] == [];
  }

  lemma UntilSecondSample(k: P.Params, c: Cycle, gap: nat) returns (cs: seq<Cycle>, t: Pair)
    requires k.frameSamples == 1 && c.sat.Some? && !c.strobe
    ensures Regular(k, Fresh(gap), cs, 17) && t == PairRun(k, Fresh(gap), cs)
    ensures t.d.tvalid && t.p.phase.Idle? && t.age == 1 && WellPlaced(t.p) && t.d.overflowCount == 0
  {
    FirstSampleHeld(k, c, gap);
    ApartWeakens(k, Fresh(gap), [c], gap + 18, 17);
    var s, wait := PairRun(k, Fresh(gap), [c]), Gaps(16, c.settings);
    HeldWaits(k, s, 16, c.settings);
    GapsAreApart(k, s, 16, c.settings, 17);
    RunConcat(k, Fresh(gap), [c], wait, 17);
    SampleAtClosing(k, PairRun(k, s, wait), c);
    RunConcat(k, Fresh(gap), [c] + wait, [c], 17);
    cs, t := [c] + wait + [c], PairRun(k, Fresh(gap), [c] + wait + [c]);
  }

  /** From reset, with packets of one sample, the third of three samples 17 cycles apart is refused. */
  lemma SeventeenIsTooClose(k: P.Params, c: Cycle, gap: nat) returns (cs: seq<Cycle>)
    requires k.frameSamples == 1 && c.sat.Some? && !c.strobe
    ensures Regular(k, Fresh(gap), cs, 17) && PairRun(k, Fresh(gap), cs).d.overflowCount == 1
  {
    var first, s := UntilSecondSample(k, c, gap);
    var rest := SomeSampleIsRefused(k, s, 16, c, 17);
    RegularConcat(k, Fresh(gap), first, s, rest, 17);
    cs := first + rest;
  }

  /** From reset, no sample is ever refused exactly when samples are at least `SafeGap` cycles apart. */
  lemma SafeFromResetIff(k: P.Params, gap: nat)
    requires P.ValidParams(k)
    ensures gap >= SafeGap(k) <==>
            forall cs :: Regular(k, Fresh(gap), cs, gap) ==> PairRun(k, Fresh(gap), cs).d.overflowCount == 0
  {
    if gap >= SafeGap(k) {
      forall cs | Regular(k, Fresh(gap), cs, gap)
        ensures PairRun(k, Fresh(gap), cs).d.overflowCount == 0
      {
        ApartWeakens(k, Fresh(gap), cs, gap, SafeGap(k));
        if k.frameSamples == 1 {
          NoOverflowWhenApart(k, Fresh(gap), cs);
        } else {
          SeventeenIsEnough(k, Fresh(gap), cs);
        }
      }
    } else {
      var c := Cycle(Some(0), P.Reset().latched, false);
      if k.frameSamples == 1 {
        var cs := SeventeenIsTooClose(k, c, gap);
        ApartWeakens(k, Fresh(gap), cs, 17, gap);
      } else {
        var cs := SixteenIsTooClose(k, c, gap);
        ApartWeakens(k, Fresh(gap), cs, 16, gap);
      }
    }
  }

  /** The output register and its counters, updated in place. */
  class DdcOutputRegister {
    var tdata: nat
    var tvalid: bool
    var overflowCount: nat
    var sampleCount: nat

    ghost function Regs(): Output
      reads this
    {
      Output(tdata, tvalid, overflowCount, sampleCount)
    }

    constructor ()
      ensures Regs() == Reset()
    {
      tdata, tvalid, overflowCount, sampleCount := 0, false, 0, 0;
    }

    method Clock(rst: bool, sat: Option<nat>, tready: bool)
      modifies this
      ensures Regs() == if rst then Reset() else Step(old(Regs()), sat, tready)
    {
      if rst {
        tdata, tvalid, overflowCount, sampleCount := 0, false, 0, 0;
      } else {
        var load := !tvalid || tready;
        if tvalid && tready {
          tvalid := false;
        }
        if sat.Some? {
          if load {
            tdata, tvalid, sampleCount := sat.value, true, (sampleCount + 1) % WORD;
          } else {
            overflowCount := (overflowCount + 1) % WORD;
          }
        }
      }
    }
  }
}
