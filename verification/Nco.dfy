/**
 The oscillator: a 32-bit phase accumulator that advances once per valid sample and feeds the CORDIC.
 */
module Nco {
  import Cordic
  import opened Modular

  datatype In = In(rst: bool, enable: bool, sampleValid: bool, freqWord: nat)

  datatype Oscillator = Oscillator(phaseAcc: nat, trig: Cordic.Pipeline)

  predicate Advances(i: In) {
    i.enable && i.sampleValid
  }

  function Initial(): (o: Oscillator)
    ensures |o.trig.pipe| == Cordic.STAGES + 1
  {
    Oscillator(0, Cordic.Cleared())
  }

  function NextPhase(phase: nat, i: In): nat {
    if i.rst then 0 else if Advances(i) then (phase + i.freqWord) % WORD else phase
  }

  /** What the CORDIC sees: the phase before the edge. */
  function TrigIn(phase: nat, i: In): Cordic.In {
    Cordic.In(i.rst, Advances(i), phase)
  }

  function Step(o: Oscillator, i: In): (r: Oscillator)
    requires |o.trig.pipe| == Cordic.STAGES + 1
    ensures |r.trig.pipe| == Cordic.STAGES + 1
  {
    Oscillator(NextPhase(o.phaseAcc, i), Cordic.Step(o.trig, TrigIn(o.phaseAcc, i)))
  }

  function Run(ins: seq<In>): (r: Oscillator)
    ensures |r.trig.pipe| == Cordic.STAGES + 1
  {
    if ins == [] then Initial() else Step(Run(ins[..|ins| - 1]), ins[|ins| - 1])
  }

  class NumericOscillator {
    var phaseAcc: nat
    const cordic: Cordic.CordicSincos

    ghost predicate Valid()
      reads this, cordic
    {
      cordic.Valid()
    }

    ghost function State(): (o: Oscillator)
      requires Valid()
      reads this, cordic, cordic.pipe
      ensures |o.trig.pipe| == Cordic.STAGES + 1
    {
      Oscillator(phaseAcc, cordic.State())
    }

    constructor ()
      ensures Valid() && fresh(cordic) && fresh(cordic.pipe) && State() == Initial()
    {
      phaseAcc := 0;
      cordic := new Cordic.CordicSincos();
    }

    method Clock(i: In)
      requires Valid()
      modifies this, cordic, cordic.pipe
      ensures Valid() && State() == Step(old(State()), i)
    {
      var advance := i.enable && i.sampleValid;
      cordic.Clock(Cordic.In(i.rst, advance, phaseAcc));
      if i.rst {
        phaseAcc := 0;
      } else if advance {
        phaseAcc := (phaseAcc + i.freqWord) % WORD;
      }
    }
  }

  // ---- phase ----------------------------------------------------------------------------------------------

  /** Cycles with `enable` and `sample_valid` both high. */
  function SampleCount(ins: seq<In>): nat {
    if ins == [] then 0
    else SampleCount(ins[..|ins| - 1]) + if ins[|ins| - 1].enable && ins[|ins| - 1].sampleValid then 1 else 0
  }

  /** No reset, and one frequency word. */
  predicate Steady(ins: seq<In>, word: nat) {
    forall k :: 0 <= k < |ins| ==> !ins[k].rst && ins[k].freqWord == word
  }

  lemma OneMore(n: nat, word: nat)
    ensures (n * word % WORD + word) % WORD == (n + 1) * word % WORD
  {
    ModAddLeft(n * word, word, WORD);
    assert (n + 1) * word == n * word + word;
  }

  /** In a cycle with either bit low the phase stands still; in a reset cycle it returns to zero. */
  lemma PhaseStands(ins: seq<In>, i: In)
    ensures !i.rst && !(i.enable && i.sampleValid) ==> Run(ins + [i]).phaseAcc == Run(ins).phaseAcc
    ensures i.rst ==> Run(ins + [i]).phaseAcc == 0
  {
    assert (ins + [i])[..|ins|] == ins;
  }

  /**
   At a fixed word the accumulator is the number of cycles with `enable` and `sample_valid` times the word, modulo 2^32,
   whatever the gaps.
   */
  lemma {:induction false} PhaseIsMultiple(ins: seq<In>, word: nat)
    requires Steady(ins, word)
    ensures Run(ins).phaseAcc == SampleCount(ins) * word % WORD
  {
    if ins != [] {
      var init := ins[..|ins| - 1];
      PhaseIsMultiple(init, word);
      OneMore(SampleCount(init), word);
    }
  }

  // ---- phase to output ------------------------------------------------------------------------------------

  /** What the CORDIC sees over a run. */
  ghost function TrigIns(ins: seq<In>): (t: seq<Cordic.In>)
    ensures |t| == |ins|
  {
    if ins == [] then []
    else TrigIns(ins[..|ins| - 1]) + [TrigIn(Run(ins[..|ins| - 1]).phaseAcc, ins[|ins| - 1])]
  }

  lemma {:induction false} TrigRuns(ins: seq<In>)
    ensures Run(ins).trig == Cordic.Run(Cordic.Cleared(), TrigIns(ins))
  {
    if ins != [] {
      var init, t := ins[..|ins| - 1], TrigIns(ins);
      TrigRuns(init);
      assert t[..|t| - 1] == TrigIns(init);
    }
  }

  lemma {:induction false} TrigInAt(ins: seq<In>, k: nat)
    requires k < |ins|
    ensures TrigIns(ins)[k] == TrigIn(Run(ins[..k]).phaseAcc, ins[k])
    decreases |ins|
  {
    if k < |ins| - 1 {
      var init := ins[..|ins| - 1];
      TrigInAt(init, k);
      assert init[..k] == ins[..k];
    }
  }

  /**
   Each output belongs to the cycle 18 edges ago: it is valid if that was a sample, and it is the vector turned to the
   phase of that cycle, which is the sample count before it times the word.
   */
  lemma OutputOfSample(ins: seq<In>, word: nat, k: nat)
    requires Steady(ins, word) && k == |ins| - 18
    ensures Run(ins).trig.out.valid == (ins[k].enable && ins[k].sampleValid)
    ensures Cordic.IsTurnedTo(Run(ins).trig.out, SampleCount(ins[..k]) * word % WORD)
    ensures var i := Cordic.In(false, ins[k].enable && ins[k].sampleValid, SampleCount(ins[..k]) * word % WORD);
            Run(ins).trig.out == Cordic.Output(Cordic.Rotated(Cordic.STAGES, Cordic.Load(i)))
  {
    TrigRuns(ins);
    var t := TrigIns(ins);
    assert Cordic.NoReset(t) by {
      forall j | 0 <= j < |t|
        ensures !t[j].rst
      {
        TrigInAt(ins, j);
      }
    }
    Cordic.OutputIsRotated(Cordic.Cleared(), t);
    TrigInAt(ins, k);
    PhaseIsMultiple(ins[..k], word);
    Cordic.VectorOfPhase(ins[k].enable && ins[k].sampleValid, SampleCount(ins[..k]) * word % WORD);
  }
}
