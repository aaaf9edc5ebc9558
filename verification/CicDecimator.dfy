/**
 The cascaded integrator-comb decimator: STAGES integrators at the input rate and STAGES combs at
 the output rate, all in registers of ACC_WIDTH (56) bits that wrap.
 */
module CicDecimator {
  import opened Modular

  const TURN: int := 0x100_0000_0000_0000
  const HALF: int := 0x80_0000_0000_0000

  /** The value a 56-bit signed register holds for the integer `v`. */
  function Wrap(v: int): int
    decreases if v >= HALF then v else if v < -HALF then -v else 0
  {
    if v >= HALF then Wrap(v - TURN) else if v < -HALF then Wrap(v + TURN) else v
  }

  /** Registers of the decimator; both register files have one entry per stage. */
  datatype Cic = Cic(integrator: seq<int>, combDelay: seq<int>, decimCount: nat, sampleOut: int, validOut: bool)

  function Zeros(n: nat): (z: seq<int>)
    ensures |z| == n && forall i :: 0 <= i < n ==> z[i] == 0
  {
    seq(n, _ => 0)
  }

  function Reset(stages: nat): Cic {
    Cic(Zeros(stages), Zeros(stages), 0, 0, false)
  }

  /** `decim_safe`: a programmed rate of zero acts as one. */
  function SafeRate(rate: nat): (r: nat)
    ensures r > 0
  {
    if rate == 0 then 1 else rate
  }

  /** Every integrator adds its predecessor's old value, the first one the input sample. */
  function Integrate(acc: seq<int>, x: int): (acc': seq<int>)
    ensures |acc'| == |acc|
  {
    seq(|acc|, i requires 0 <= i < |acc| => Wrap(acc[i] + if i == 0 then x else acc[i - 1]))
  }

  /** The comb chain on input `v`: what each delay will hold, and the value that leaves the last stage. */
  function CombDelays(delay: seq<int>, v: int): (d: seq<int>)
    ensures |d| == |delay|
  {
    if delay == [] then [] else [v] + CombDelays(delay[1..], Wrap(v - delay[0]))
  }

  function CombOut(delay: seq<int>, v: int): int {
    if delay == [] then v else CombOut(delay[1..], Wrap(v - delay[0]))
  }

  /** The edge of a valid sample inside an output period. */
  function Accumulated(c: Cic, x: int): Cic {
    Cic(Integrate(c.integrator, x), c.combDelay, (c.decimCount + 1) % 0x1_0000, c.sampleOut, false)
  }

  /** The edge of the valid sample that completes an output period. */
  function Fired(c: Cic, x: int): Cic
    requires |c.integrator| > 0
  {
    var v := c.integrator[|c.integrator| - 1];
    Cic(Integrate(c.integrator, x), CombDelays(c.combDelay, v), 0, CombOut(c.combDelay, v), true)
  }

  /** One clock edge out of reset. */
  function Step(c: Cic, valid: bool, x: int, rate: nat): (c': Cic)
    requires |c.integrator| == |c.combDelay| > 0
    ensures |c'.integrator| == |c'.combDelay| == |c.integrator|
  {
    if !valid then c.(validOut := false)
    else if c.decimCount == SafeRate(rate) - 1 then Fired(c, x)
    else Accumulated(c, x)
  }

  /** A clock cycle offers a sample or nothing. */
  datatype Input = Gap | Sample(x: int)

  datatype Trace = Trace(c: Cic, outputs: seq<int>)

  function Advance(t: Trace, i: Input, rate: nat): (t': Trace)
    requires |t.c.integrator| == |t.c.combDelay| > 0
    ensures |t'.c.integrator| == |t'.c.combDelay| == |t.c.integrator|
  {
    var c' := Step(t.c, i.Sample?, if i.Sample? then i.x else 0, rate);
    Trace(c', if c'.validOut then t.outputs + [c'.sampleOut] else t.outputs)
  }

  function Run(stages: nat, rate: nat, ins: seq<Input>): (t: Trace)
    requires stages > 0
    ensures |t.c.integrator| == |t.c.combDelay| == stages
  {
    if ins == [] then Trace(Reset(stages), [])
    else Advance(Run(stages, rate, ins[..|ins| - 1]), ins[|ins| - 1], rate)
  }

  /** The samples of a run, gaps removed. */
  function Samples(ins: seq<Input>): (xs: seq<int>) {
    if ins == [] then []
    else
      var last := ins[|ins| - 1];
      Samples(ins[..|ins| - 1]) + if last.Sample? then [last.x] else []
  }

  // ---- the reference: exact moving sums over unbounded integers --------------------------------

  /** The input extended by zero on both sides. */
  function At(xs: seq<int>, n: int): int {
    if 0 <= n < |xs| then xs[n] else 0
  }

  function Sum(n: nat, f: int -> int): int {
    if n == 0 then 0 else Sum(n - 1, f) + f(n - 1)
  }

  /** `stages` moving sums of length `r` in a row, each one sample late. */
  function MovingSum(xs: seq<int>, r: nat, stages: nat, n: int): int
    decreases stages
  {
    if stages == 0 then At(xs, n) else Sum(r, a => MovingSum(xs, r, stages - 1, n - 1 - a))
  }

  /** Three moving sums of length `r` written out, the newest sample being x[n]. */
  function TripleSum(xs: seq<int>, r: nat, n: int): int {
    Sum(r, a => Sum(r, b => Sum(r, c => At(xs, n - a - b - c))))
  }

  // ---- sums -----------------------------------------------------------------------------------

  lemma {:induction false} SumCongruent(n: nat, f: int -> int, g: int -> int)
    requires forall i :: 0 <= i < n ==> f(i) == g(i)
    ensures Sum(n, f) == Sum(n, g)
  {
    if n > 0 {
      SumCongruent(n - 1, f, g);
    }
  }

  lemma {:induction false} SumDifference(n: nat, f: int -> int, g: int -> int)
    ensures Sum(n, f) - Sum(n, g) == Sum(n, i => f(i) - g(i))
  {
    var d := i => f(i) - g(i);
    if n > 0 {
      SumDifference(n - 1, f, g);
      SumCongruent(n - 1, d, i => f(i) - g(i));
    }
    SumCongruent(n, d, i => f(i) - g(i));
  }

  lemma {:induction false} SumBound(n: nat, f: int -> int, bound: int)
    requires bound >= 0
    requires forall i :: 0 <= i < n ==> -bound <= f(i) <= bound
    ensures -(n * bound) <= Sum(n, f) <= n * bound
  {
    if n > 0 {
      SumBound(n - 1, f, bound);
      assert n * bound == (n - 1) * bound + bound;
    }
  }

  // ---- unbounded integrators and differences ----------------------------------------------------

  /** Stage `j` of the integrators after `n` samples, without wrapping; stage 0 is the input. */
  function Integral(xs: seq<int>, j: nat, n: int): int
    decreases j, if n > 0 then n else 0
  {
    if j == 0 then At(xs, n)
    else if n <= 0 then 0
    else Integral(xs, j, n - 1) + Integral(xs, j - 1, n - 1)
  }

  /** The `i`-fold difference at distance `r` of integrator `j`. */
  function Difference(xs: seq<int>, r: nat, i: nat, j: nat, n: int): int {
    if i == 0 then Integral(xs, j, n)
    else Difference(xs, r, i - 1, j, n) - Difference(xs, r, i - 1, j, n - r)
  }

  lemma {:induction false} IntegralBeforeStart(xs: seq<int>, j: nat, n: int)
    requires n < 0
    ensures Integral(xs, j, n) == 0
  {
  }

  /** Differencing an integrator at distance `r` sums its predecessor over the last `r` samples. */
  lemma {:induction false} Telescope(xs: seq<int>, r: nat, j: nat, n: int)
    ensures Integral(xs, j + 1, n) - Integral(xs, j + 1, n - r) == Sum(r, a => Integral(xs, j, n - 1 - a))
    decreases r
  {
    var f := a => Integral(xs, j, n - 1 - a);
    if r > 0 {
      Telescope(xs, r - 1, j, n);
      SumCongruent(r - 1, f, a => Integral(xs, j, n - 1 - a));
      if n - r < 0 {
        IntegralBeforeStart(xs, j, n - r);
      }
      assert Integral(xs, j + 1, n - (r - 1)) - Integral(xs, j + 1, n - r) == Integral(xs, j, n - r);
    }
    SumCongruent(r, f, a => Integral(xs, j, n - 1 - a));
  }

  /** Differencing a moving sum is the moving sum of the difference. */
  lemma DifferenceOfSum(xs: seq<int>, r: nat, i: nat, j: nat, n: int)
    ensures Sum(r, a => Difference(xs, r, i, j, n - 1 - a)) - Sum(r, a => Difference(xs, r, i, j, n - r - 1 - a))
            == Sum(r, a => Difference(xs, r, i + 1, j, n - 1 - a))
  {
    var g := a => Difference(xs, r, i, j, n - 1 - a);
    var h := a => Difference(xs, r, i, j, n - r - 1 - a);
    SumDifference(r, g, h);
    SumCongruent(r, a => g(a) - h(a), a => Difference(xs, r, i + 1, j, n - 1 - a));
  }

  /** One more integrator and one more comb add one moving sum. */
  lemma {:induction false} DifferenceSum(xs: seq<int>, r: nat, i: nat, j: nat, n: int)
    ensures Difference(xs, r, i + 1, j + 1, n) == Sum(r, a => Difference(xs, r, i, j, n - 1 - a))
    decreases i
  {
    if i == 0 {
      Telescope(xs, r, j, n);
      SumCongruent(r, a => Difference(xs, r, 0, j, n - 1 - a), a => Integral(xs, j, n - 1 - a));
    } else {
      DifferenceSum(xs, r, i - 1, j, n);
      DifferenceSum(xs, r, i - 1, j, n - r);
      DifferenceOfSum(xs, r, i - 1, j, n);
    }
  }

  /** Integrators followed by combs are moving sums: the identity the filter rests on. */
  lemma {:induction false} CombOfIntegrators(xs: seq<int>, r: nat, stages: nat, n: int)
    ensures Difference(xs, r, stages, stages, n) == MovingSum(xs, r, stages, n)
    decreases stages
  {
    if stages > 0 {
      var s := stages - 1;
      var f := a => Difference(xs, r, s, s, n - 1 - a);
      var g := a => MovingSum(xs, r, s, n - 1 - a);
      forall a | 0 <= a < r
        ensures f(a) == g(a)
      {
        CombOfIntegrators(xs, r, s, n - 1 - a);
      }
      DifferenceSum(xs, r, s, s, n);
      SumCongruent(r, f, a => Difference(xs, r, s, s, n - 1 - a));
      SumCongruent(r, f, g);
      SumCongruent(r, g, a => MovingSum(xs, r, stages - 1, n - 1 - a));
    }
  }

  // ---- the registers track the unbounded filter --------------------------------------------------

  lemma {:induction false} WrapRange(v: int)
    ensures -HALF <= Wrap(v) < HALF
    decreases if v >= HALF then v else if v < -HALF then -v else 0
  {
    if v >= HALF {
      WrapRange(v - TURN);
    } else if v < -HALF {
      WrapRange(v + TURN);
    }
  }

  lemma WrapTurn(v: int)
    ensures Wrap(v + TURN) == Wrap(v)
  {
  }

  /** Whole turns do not change a register. */
  lemma {:induction false} WrapTurns(v: int, k: int)
    ensures Wrap(v + k * TURN) == Wrap(v)
    decreases if k < 0 then -k else k
  {
    if k > 0 {
      WrapTurns(v, k - 1);
      WrapTurn(v + (k - 1) * TURN);
    } else if k < 0 {
      WrapTurns(v, k + 1);
      WrapTurn(v + k * TURN);
    }
  }

  lemma {:induction false} WrapDiffers(v: int) returns (k: int)
    ensures Wrap(v) == v + k * TURN
    decreases if v >= HALF then v else if v < -HALF then -v else 0
  {
    if v >= HALF {
      k := WrapDiffers(v - TURN);
      k := k - 1;
    } else if v < -HALF {
      k := WrapDiffers(v + TURN);
      k := k + 1;
    } else {
      k := 0;
    }
  }

  /** This is two's complement: the low 56 bits, read with a sign. */
  lemma WrapIsTwosComplement(v: int)
    ensures Wrap(v) == (v + HALF) % TURN - HALF
  {
    WrapRange(v);
    var k := WrapDiffers(v);
    ModAddMultiple(v + HALF, k, TURN);
    ModSmall(Wrap(v) + HALF, TURN);
  }

  lemma WrapSumTurns(a: int, b: int, i: int, j: int)
    requires Wrap(a) == a + i * TURN && Wrap(b) == b + j * TURN
    ensures Wrap(Wrap(a) + b) == Wrap(a + b) && Wrap(Wrap(a) + Wrap(b)) == Wrap(a + b)
    ensures Wrap(Wrap(a) - Wrap(b)) == Wrap(a - b)
  {
    WrapTurns(a + b, i);
    WrapTurns(a + b, i + j);
    WrapTurns(a - b, i - j);
  }

  /** Wrapping the operands first does not change a wrapped sum or difference. */
  lemma WrapSum(a: int, b: int)
    ensures Wrap(Wrap(a) + b) == Wrap(a + b) && Wrap(Wrap(a) + Wrap(b)) == Wrap(a + b)
    ensures Wrap(Wrap(a) - Wrap(b)) == Wrap(a - b)
  {
    var i := WrapDiffers(a);
    var j := WrapDiffers(b);
    WrapSumTurns(a, b, i, j);
  }

  lemma {:induction false} DifferenceBeforeStart(xs: seq<int>, r: nat, i: nat, j: nat, n: int)
    requires n < 0
    ensures Difference(xs, r, i, j, n) == 0
    decreases i
  {
    if i > 0 {
      DifferenceBeforeStart(xs, r, i - 1, j, n);
      DifferenceBeforeStart(xs, r, i - 1, j, n - r);
    } else {
      IntegralBeforeStart(xs, j, n);
    }
  }

  /** The delays hold the comb inputs of time `n`. */
  ghost predicate DelaysAt(xs: seq<int>, r: nat, stages: nat, i: nat, delay: seq<int>, n: int) {
    forall m :: 0 <= m < |delay| ==> delay[m] == Wrap(Difference(xs, r, i + m, stages, n))
  }

  /** The comb chain subtracts, stage by stage, what it saw `r` samples ago. */
  lemma {:induction false} CombChain(xs: seq<int>, r: nat, stages: nat, i: nat, delay: seq<int>, n: int)
    requires i + |delay| == stages && DelaysAt(xs, r, stages, i, delay, n - r)
    ensures var v := Wrap(Difference(xs, r, i, stages, n));
            && DelaysAt(xs, r, stages, i, CombDelays(delay, v), n)
            && CombOut(delay, v) == Wrap(Difference(xs, r, stages, stages, n))
    decreases |delay|
  {
    if delay != [] {
      WrapSum(Difference(xs, r, i, stages, n), Difference(xs, r, i, stages, n - r));
      var rest := delay[1..];
      forall m | 0 <= m < |rest|
        ensures rest[m] == Wrap(Difference(xs, r, i + 1 + m, stages, n - r))
      {
        assert rest[m] == delay[m + 1];
      }
      CombChain(xs, r, stages, i + 1, rest, n);
      var v := Wrap(Difference(xs, r, i, stages, n));
      var d := CombDelays(delay, v);
      forall m | 0 <= m < |d|
        ensures d[m] == Wrap(Difference(xs, r, i + m, stages, n))
      {
        if m > 0 {
          assert d[m] == d[1..][m - 1];
        }
      }
    }
  }

  ghost predicate IntegratorsAt(xs: seq<int>, acc: seq<int>, n: int) {
    forall j :: 0 <= j < |acc| ==> acc[j] == Wrap(Integral(xs, j + 1, n))
  }

  ghost predicate OutputsAt(xs: seq<int>, r: nat, stages: nat, outs: seq<int>) {
    forall m :: 0 <= m < |outs| ==> outs[m] == Wrap(Difference(xs, r, stages, stages, (m + 1) * r - 1))
  }

  /** After `n` samples of `xs` the registers and the outputs are the wrapped exact values. */
  ghost predicate Tracks(xs: seq<int>, r: nat, stages: nat, t: Trace, n: nat) {
    && |t.c.integrator| == |t.c.combDelay| == stages
    && IntegratorsAt(xs, t.c.integrator, n)
    && DelaysAt(xs, r, stages, 0, t.c.combDelay, |t.outputs| * r - 1)
    && t.c.decimCount == n - |t.outputs| * r < r
    && OutputsAt(xs, r, stages, t.outputs)
  }

  lemma IntegrateAt(acc: seq<int>, x: int, i: nat)
    requires i < |acc|
    ensures Integrate(acc, x)[i] == Wrap(acc[i] + if i == 0 then x else acc[i - 1])
  {
  }

  lemma IsIntegrated(acc: seq<int>, x: int, next: seq<int>)
    requires |next| == |acc|
    requires forall i :: 0 <= i < |acc| ==> next[i] == Wrap(acc[i] + if i == 0 then x else acc[i - 1])
    ensures next == Integrate(acc, x)
  {
    forall i | 0 <= i < |acc|
      ensures next[i] == Integrate(acc, x)[i]
    {
      IntegrateAt(acc, x, i);
    }
  }

  lemma IntegratorTracks(xs: seq<int>, j: nat, n: nat, own: int, prev: int)
    requires n < |xs| && own == Wrap(Integral(xs, j + 1, n))
    requires prev == if j == 0 then xs[n] else Wrap(Integral(xs, j, n))
    ensures Wrap(own + prev) == Wrap(Integral(xs, j + 1, n + 1))
  {
    WrapSum(Integral(xs, j + 1, n), Integral(xs, j, n));
  }

  lemma IntegrateTracks(xs: seq<int>, acc: seq<int>, n: nat)
    requires n < |xs| && IntegratorsAt(xs, acc, n)
    ensures IntegratorsAt(xs, Integrate(acc, xs[n]), n + 1)
  {
    forall j | 0 <= j < |acc|
      ensures Integrate(acc, xs[n])[j] == Wrap(Integral(xs, j + 1, n + 1))
    {
      IntegrateAt(acc, xs[n], j);
      var prev := if j == 0 then xs[n] else acc[j - 1];
      assert j > 0 ==> prev == Wrap(Integral(xs, j - 1 + 1, n));
      IntegratorTracks(xs, j, n, acc[j], prev);
    }
  }

  lemma SampleTracksBetween(xs: seq<int>, rate: nat, stages: nat, t: Trace, n: nat)
    requires stages > 0 && rate < 0x1_0000 && n < |xs|
    requires Tracks(xs, SafeRate(rate), stages, t, n)
    requires t.c.decimCount != SafeRate(rate) - 1
    ensures Tracks(xs, SafeRate(rate), stages, Advance(t, Sample(xs[n]), rate), n + 1)
  {
    IntegrateTracks(xs, t.c.integrator, n);
  }

  lemma OutputsAppend(xs: seq<int>, r: nat, stages: nat, outs: seq<int>, y: int)
    requires OutputsAt(xs, r, stages, outs)
    requires y == Wrap(Difference(xs, r, stages, stages, (|outs| + 1) * r - 1))
    ensures OutputsAt(xs, r, stages, outs + [y])
  {
    forall m | 0 <= m < |outs + [y]|
      ensures (outs + [y])[m] == Wrap(Difference(xs, r, stages, stages, (m + 1) * r - 1))
    {
      if m < |outs| {
        assert (outs + [y])[m] == outs[m];
      }
    }
  }

  /** The edge that completes an output period, with its exact values. */
  lemma FiredTracks(xs: seq<int>, r: nat, stages: nat, t: Trace, n: nat)
    requires stages > 0 && n < |xs| && |t.c.integrator| == |t.c.combDelay| == stages
    requires IntegratorsAt(xs, t.c.integrator, n) && DelaysAt(xs, r, stages, 0, t.c.combDelay, n - r)
    ensures var c := Fired(t.c, xs[n]);
            && IntegratorsAt(xs, c.integrator, n + 1)
            && DelaysAt(xs, r, stages, 0, c.combDelay, n)
            && c.sampleOut == Wrap(Difference(xs, r, stages, stages, n))
  {
    IntegrateTracks(xs, t.c.integrator, n);
    assert t.c.integrator[stages - 1] == Wrap(Difference(xs, r, 0, stages, n));
    CombChain(xs, r, stages, 0, t.c.combDelay, n);
  }

  lemma TracksAfterOutput(xs: seq<int>, r: nat, stages: nat, t: Trace, n: nat, k: nat)
    requires |t.c.integrator| == |t.c.combDelay| == stages && |t.outputs| == k && k * r == n && r > 0
    requires IntegratorsAt(xs, t.c.integrator, n) && DelaysAt(xs, r, stages, 0, t.c.combDelay, n - 1)
    requires t.c.decimCount == 0 && OutputsAt(xs, r, stages, t.outputs)
    ensures Tracks(xs, r, stages, t, n)
  {
  }

  lemma SampleTracksOutput(xs: seq<int>, rate: nat, stages: nat, t: Trace, n: nat)
    requires stages > 0 && rate < 0x1_0000 && n < |xs|
    requires Tracks(xs, SafeRate(rate), stages, t, n)
    requires t.c.decimCount == SafeRate(rate) - 1
    ensures Tracks(xs, SafeRate(rate), stages, Advance(t, Sample(xs[n]), rate), n + 1)
  {
    var r, k := SafeRate(rate), |t.outputs|;
    MulStep(k, r);
    assert k * r - 1 == n - r && (k + 1) * r == n + 1;
    FiredTracks(xs, r, stages, t, n);
    var c := Fired(t.c, xs[n]);
    OutputsAppend(xs, r, stages, t.outputs, c.sampleOut);
    TracksAfterOutput(xs, r, stages, Trace(c, t.outputs + [c.sampleOut]), n + 1, k + 1);
  }

  lemma MulStep(k: nat, r: nat)
    ensures (k + 1) * r == k * r + r
  {
  }

  lemma ResetTracks(xs: seq<int>, r: nat, stages: nat)
    requires r > 0
    ensures Tracks(xs, r, stages, Trace(Reset(stages), []), 0)
  {
    forall m | 0 <= m < stages
      ensures Difference(xs, r, m, stages, -1) == 0
    {
      DifferenceBeforeStart(xs, r, m, stages, -1);
    }
  }

  lemma SampleTracks(xs: seq<int>, rate: nat, stages: nat, t: Trace, n: nat)
    requires stages > 0 && rate < 0x1_0000 && n < |xs|
    requires Tracks(xs, SafeRate(rate), stages, t, n)
    ensures Tracks(xs, SafeRate(rate), stages, Advance(t, Sample(xs[n]), rate), n + 1)
  {
    if t.c.decimCount == SafeRate(rate) - 1 {
      SampleTracksOutput(xs, rate, stages, t, n);
    } else {
      SampleTracksBetween(xs, rate, stages, t, n);
    }
  }

  lemma GapTracks(xs: seq<int>, rate: nat, stages: nat, t: Trace, n: nat)
    requires stages > 0 && Tracks(xs, SafeRate(rate), stages, t, n)
    ensures Tracks(xs, SafeRate(rate), stages, Advance(t, Gap, rate), n)
  {
  }

  lemma {:induction false} RunTracks(stages: nat, rate: nat, ins: seq<Input>, xs: seq<int>)
    requires stages > 0 && rate < 0x1_0000 && Samples(ins) <= xs
    ensures Tracks(xs, SafeRate(rate), stages, Run(stages, rate, ins), |Samples(ins)|)
  {
    if ins == [] {
      ResetTracks(xs, SafeRate(rate), stages);
    } else {
      var init, last := ins[..|ins| - 1], ins[|ins| - 1];
      RunTracks(stages, rate, init, xs);
      if last.Sample? {
        assert last.x == Samples(ins)[|Samples(init)|];
        SampleTracks(xs, rate, stages, Run(stages, rate, init), |Samples(init)|);
      } else {
        GapTracks(xs, rate, stages, Run(stages, rate, init), |Samples(init)|);
      }
    }
  }

  /** Every output is the moving sum, modulo the register size, however often the integrators wrapped. */
  lemma OutputsAreMovingSums(stages: nat, rate: nat, r: nat, ins: seq<Input>)
    requires stages > 0 && rate < 0x1_0000 && r == if rate == 0 then 1 else rate
    ensures var xs, outs := Samples(ins), Run(stages, rate, ins).outputs;
            && |outs| == |xs| / r
            && forall k :: 0 <= k < |outs| ==> outs[k] == Wrap(MovingSum(xs, r, stages, (k + 1) * r - 1))
  {
    var xs, t := Samples(ins), Run(stages, rate, ins);
    RunTracks(stages, rate, ins, xs);
    DivModUnique(|xs|, |t.outputs|, r, t.c.decimCount);
    forall k | 0 <= k < |t.outputs|
      ensures t.outputs[k] == Wrap(MovingSum(xs, r, stages, (k + 1) * r - 1))
    {
      CombOfIntegrators(xs, r, stages, (k + 1) * r - 1);
    }
  }

  // ---- the three-stage filter in the receiver ------------------------------------------------------

  lemma OneStage(xs: seq<int>, r: nat, n: int)
    ensures MovingSum(xs, r, 1, n) == Sum(r, c => At(xs, n - 1 - c))
  {
    SumCongruent(r, c => MovingSum(xs, r, 0, n - 1 - c), c => At(xs, n - 1 - c));
  }

  lemma TwoStages(xs: seq<int>, r: nat, n: int)
    ensures MovingSum(xs, r, 2, n) == Sum(r, b => Sum(r, c => At(xs, n - 2 - b - c)))
  {
    var f := b => MovingSum(xs, r, 1, n - 1 - b);
    var g := b => Sum(r, c => At(xs, n - 2 - b - c));
    forall b | 0 <= b < r
      ensures f(b) == g(b)
    {
      OneStage(xs, r, n - 1 - b);
      SumCongruent(r, c => At(xs, n - 1 - b - 1 - c), c => At(xs, n - 2 - b - c));
    }
    SumCongruent(r, f, g);
    SumCongruent(r, f, b => MovingSum(xs, r, 2 - 1, n - 1 - b));
  }

  lemma ThreeStages(xs: seq<int>, r: nat, n: int)
    ensures MovingSum(xs, r, 3, n) == TripleSum(xs, r, n - 3)
  {
    var f := a => MovingSum(xs, r, 2, n - 1 - a);
    var g := a => Sum(r, b => Sum(r, c => At(xs, n - 3 - a - b - c)));
    forall a | 0 <= a < r
      ensures f(a) == g(a)
    {
      TwoStages(xs, r, n - 1 - a);
      var f2 := b => Sum(r, c => At(xs, n - 1 - a - 2 - b - c));
      var g2 := b => Sum(r, c => At(xs, n - 3 - a - b - c));
      forall b | 0 <= b < r
        ensures f2(b) == g2(b)
      {
        SumCongruent(r, c => At(xs, n - 1 - a - 2 - b - c), c => At(xs, n - 3 - a - b - c));
      }
      SumCongruent(r, f2, g2);
    }
    SumCongruent(r, f, g);
    SumCongruent(r, f, a => MovingSum(xs, r, 3 - 1, n - 1 - a));
  }

  lemma SingleSumBound(xs: seq<int>, r: nat, n: int, bound: int)
    requires bound >= 0 && forall i :: 0 <= i < |xs| ==> -bound <= xs[i] <= bound
    ensures -(r * bound) <= Sum(r, c => At(xs, n - c)) <= r * bound
  {
    SumBound(r, c => At(xs, n - c), bound);
  }

  lemma DoubleSumBound(xs: seq<int>, r: nat, n: int, bound: int)
    requires bound >= 0 && forall i :: 0 <= i < |xs| ==> -bound <= xs[i] <= bound
    ensures -(r * (r * bound)) <= Sum(r, b => Sum(r, c => At(xs, n - b - c))) <= r * (r * bound)
  {
    var g := b => Sum(r, c => At(xs, n - b - c));
    forall b | 0 <= b < r
      ensures -(r * bound) <= g(b) <= r * bound
    {
      SingleSumBound(xs, r, n - b, bound);
    }
    SumBound(r, g, r * bound);
  }

  /** A triple sum of samples bounded by `bound` is bounded by r^3 times it. */
  lemma TripleSumBound(xs: seq<int>, r: nat, n: int, bound: int)
    requires bound >= 0 && forall i :: 0 <= i < |xs| ==> -bound <= xs[i] <= bound
    ensures -(r * (r * (r * bound))) <= TripleSum(xs, r, n) <= r * (r * (r * bound))
  {
    var f := a => Sum(r, b => Sum(r, c => At(xs, n - a - b - c)));
    forall a | 0 <= a < r
      ensures -(r * (r * bound)) <= f(a) <= r * (r * bound)
    {
      DoubleSumBound(xs, r, n - a, bound);
    }
    SumBound(r, f, r * (r * bound));
  }

  /** One output per R samples, output k (from 1) being the sum of x[kR-4-a-b-c] over a, b, c in [0, R). */
  ghost predicate ExactOutputs(xs: seq<int>, r: nat, outs: seq<int>)
    requires r > 0
  {
    && |outs| == |xs| / r
    && forall k :: 1 <= k <= |outs| ==> outs[k - 1] == TripleSum(xs, r, k * r - 4)
  }

  predicate Within(xs: seq<int>, bound: int) {
    forall i :: 0 <= i < |xs| ==> -bound <= xs[i] <= bound
  }

  /**
   At a programmed rate R, a rate of zero standing for one: whenever R^3 times the largest sample stays below 2^55, the
   outputs are exact, however often the integrators wrapped.
   */
  lemma ThreeStageExact(rate: nat, r: nat, ins: seq<Input>, bound: int)
    requires rate < 0x1_0000 && r == if rate == 0 then 1 else rate
    requires bound >= 0 && Within(Samples(ins), bound) && r * (r * (r * bound)) < HALF
    ensures ExactOutputs(Samples(ins), r, Run(3, rate, ins).outputs)
  {
    var xs, outs := Samples(ins), Run(3, rate, ins).outputs;
    OutputsAreMovingSums(3, rate, r, ins);
    forall k | 1 <= k <= |outs|
      ensures outs[k - 1] == TripleSum(xs, r, k * r - 4)
    {
      assert outs[k - 1] == Wrap(MovingSum(xs, r, 3, (k - 1 + 1) * r - 1));
      ThreeStages(xs, r, k * r - 1);
      TripleSumBound(xs, r, k * r - 4, bound);
    }
  }

  lemma SupportedRateFits(rate: nat)
    requires rate == 250 || rate == 500 || rate == 1000 || rate == 2000
    ensures rate * (rate * (rate * 0x2_0000)) < HALF
  {
    if rate == 250 {
    } else if rate == 500 {
    } else if rate == 1000 {
    } else {
    }
  }

  /** Every supported decimation meets the bound for any mixer output of magnitude up to 2^17. */
  lemma SupportedRatesAreExact(rate: nat, ins: seq<Input>)
    requires rate == 250 || rate == 500 || rate == 1000 || rate == 2000
    requires Within(Samples(ins), 0x2_0000)
    ensures var xs, outs := Samples(ins), Run(3, rate, ins).outputs;
            && |outs| == |xs| / rate
            && forall k :: 1 <= k <= |outs| ==> outs[k - 1] == TripleSum(xs, rate, k * rate - 4)
  {
    SupportedRateFits(rate);
    ThreeStageExact(rate, rate, ins, 0x2_0000);
  }

  /** The decimator's registers, updated in place. */
  class Decimator {
    const stages: nat
    const integrator: array<int>
    const combDelay: array<int>
    var decimCount: nat
    var sampleOut: int
    var validOut: bool

    ghost function Regs(): Cic
      reads this, integrator, combDelay
    {
      Cic(integrator[..], combDelay[..], decimCount, sampleOut, validOut)
    }

    ghost predicate Valid()
      reads this, integrator, combDelay
    {
      integrator != combDelay && integrator.Length == combDelay.Length == stages > 0
    }

    constructor (stages: nat)
      requires stages > 0
      ensures Valid() && this.stages == stages && fresh(integrator) && fresh(combDelay)
      ensures Regs() == Reset(stages)
    {
      this.stages := stages;
      integrator := new int[stages](_ => 0);
      combDelay := new int[stages](_ => 0);
      decimCount, sampleOut, validOut := 0, 0, false;
      new;
      assert integrator[..] == Zeros(stages) && combDelay[..] == Zeros(stages);
    }

    /** Every integrator adds the value its predecessor had before the edge. */
    method AddToIntegrators(x: int)
      requires Valid()
      modifies integrator
      ensures integrator[..] == Integrate(old(integrator[..]), x)
    {
      ghost var was := integrator[..];
      var i := stages - 1;
      while i > 0
        invariant 0 <= i < stages
        invariant forall j :: 0 <= j <= i ==> integrator[j] == was[j]
        invariant forall j :: i < j < stages ==> integrator[j] == Wrap(was[j] + was[j - 1])
      {
        integrator[i] := Wrap(integrator[i] + integrator[i - 1]);
        i := i - 1;
      }
      integrator[0] := Wrap(integrator[0] + x);
      IsIntegrated(was, x, integrator[..]);
    }

    /** The comb chain: each stage subtracts its delay and stores its input there. */
    method RunCombs(v: int) returns (value: int)
      requires Valid()
      modifies combDelay
      ensures combDelay[..] == CombDelays(old(combDelay[..]), v)
      ensures value == CombOut(old(combDelay[..]), v)
    {
      value := v;
      ghost var d := combDelay[..];
      for i := 0 to stages
        invariant combDelay[i..] == d[i..]
        invariant combDelay[..i] + CombDelays(d[i..], value) == CombDelays(d, v)
        invariant CombOut(d[i..], value) == CombOut(d, v)
      {
        var next := Wrap(value - combDelay[i]);
        assert d[i..][0] == combDelay[i] && d[i..][1..] == d[i + 1..];
        combDelay[i] := value;
        value := next;
        assert combDelay[..i + 1] == combDelay[..i] + [combDelay[i]];
      }
    }

    method ClearRegisters()
      requires Valid()
      modifies this, integrator, combDelay
      ensures Regs() == Reset(stages)
    {
      for i := 0 to stages
        invariant forall j :: 0 <= j < i ==> integrator[j] == 0 && combDelay[j] == 0
      {
        integrator[i], combDelay[i] := 0, 0;
      }
      decimCount, sampleOut, validOut := 0, 0, false;
      assert integrator[..] == Zeros(stages) && combDelay[..] == Zeros(stages);
    }

    /** The edge of a valid sample that completes no output period. */
    method Accumulate(x: int)
      requires Valid()
      modifies this`decimCount, this`validOut, integrator
      ensures Valid()
      ensures Regs() == Accumulated(old(Regs()), x)
    {
      validOut := false;
      AddToIntegrators(x);
      decimCount := (decimCount + 1) % 0x1_0000;
    }

    /** The edge of a valid sample that completes an output period. */
    method Fire(x: int)
      requires Valid()
      modifies this, integrator, combDelay
      ensures Valid()
      ensures Regs() == Fired(old(Regs()), x)
    {
      decimCount := 0;
      sampleOut := RunCombs(integrator[stages - 1]);
      AddToIntegrators(x);
      validOut := true;
    }

    method Clock(rst: bool, valid: bool, x: int, rate: nat)
      requires Valid()
      modifies this, integrator, combDelay
      ensures Valid()
      ensures Regs() == if rst then Reset(stages) else Step(old(Regs()), valid, x, rate)
    {
      if rst {
        ClearRegisters();
      } else {
        if !valid {
          validOut := false;
        } else if decimCount == SafeRate(rate) - 1 {
          Fire(x);
        } else {
          Accumulate(x);
        }
      }
    }
  }
}
