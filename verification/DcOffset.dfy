/**
 Removal of the converter's offset: a running mean of the samples, kept with 12 fractional bits in a
 32-bit register, is subtracted from each sample. Samples come from the format converter of a 14-bit ADC.
 */
module DcOffset {
  import opened Modular

  const SCALE := 4096

  // ---- the format converter ----------------------------------------------------------------------------

  /** The 14 bits with the top one inverted when the converter delivers offset binary. */
  function TwosBits(bits: nat, offsetBinary: bool): nat
    requires bits < 0x4000
  {
    if !offsetBinary then bits else if bits >= 0x2000 then bits - 0x2000 else bits + 0x2000
  }

  function Convert(bits: nat, offsetBinary: bool): int
    requires bits < 0x4000
  {
    var t := TwosBits(bits, offsetBinary);
    if t >= 0x2000 then t - 0x4000 else t
  }

  predicate Sample14(x: int) {
    -0x2000 <= x < 0x2000
  }

  /** Either format yields every 14-bit value from exactly one code; offset binary counts up from the least. */
  lemma ConvertIsExact(bits: nat, offsetBinary: bool)
    requires bits < 0x4000
    ensures Sample14(Convert(bits, offsetBinary))
    ensures offsetBinary ==> Convert(bits, true) == bits - 0x2000
    ensures !offsetBinary ==> Convert(bits, false) % 0x4000 == bits
  {
  }

  // ---- registers ------------------------------------------------------------------------------------------

  datatype Remover = Remover(avg: int, out: int, validOut: bool)

  datatype In = In(rst: bool, enable: bool, valid: bool, x: int)

  function Initial(): Remover {
    Remover(0, 0, false)
  }

  function NextAvg(avg: int, x: int): int {
    Signed32(avg + Signed32(Signed32(SCALE * x) - avg) / SCALE)
  }

  /** A 17-bit subtraction of which 16 bits are kept. */
  function Corrected(avg: int, x: int): int {
    Signed16((x % 0x2_0000 - avg / SCALE % 0x2_0000) % 0x2_0000)
  }

  function Step(s: Remover, i: In): Remover {
    if i.rst then Initial()
    else if i.valid && i.enable then Remover(NextAvg(s.avg, i.x), Corrected(s.avg, i.x), true)
    else if i.valid then Remover(s.avg, i.x, true)
    else Remover(s.avg, s.out, false)
  }

  function Run(s: Remover, ins: seq<In>): Remover {
    if ins == [] then s else Step(Run(s, ins[..|ins| - 1]), ins[|ins| - 1])
  }

  class DcOffsetRemove {
    var avgQ: int
    var sampleOut: int
    var sampleValidOut: bool

    function State(): Remover
      reads this
    {
      Remover(avgQ, sampleOut, sampleValidOut)
    }

    constructor ()
      ensures State() == Initial()
    {
      avgQ, sampleOut, sampleValidOut := 0, 0, false;
    }

    method Clock(i: In)
      modifies this
      ensures State() == Step(old(State()), i)
    {
      if i.rst {
        avgQ, sampleOut, sampleValidOut := 0, 0, false;
      } else {
        sampleValidOut := i.valid;
        if i.valid {
          if i.enable {
            var sampleQ := Signed32(SCALE * i.x);
            var avgError := Signed32(sampleQ - avgQ);
            var avgSample := avgQ / SCALE;
            var corrected := (i.x % 0x2_0000 - avgSample % 0x2_0000) % 0x2_0000;
            avgQ := Signed32(avgQ + avgError / SCALE);
            sampleOut := Signed16(corrected);
          } else {
            sampleOut := i.x;
          }
        }
      }
    }
  }

  // ---- the mean stays among the samples ---------------------------------------------------------------

  /** The mean without registers: a step of one 4096th of the error, rounded down. */
  function ExactAvg(avg: int, x: int): int {
    avg + (SCALE * x - avg) / SCALE
  }

  lemma ExactBetween(avg: int, x: int)
    ensures avg <= SCALE * x ==> avg <= ExactAvg(avg, x) <= SCALE * x
    ensures avg >= SCALE * x ==> SCALE * x <= ExactAvg(avg, x) <= avg
  {
  }

  predicate Within(lo: int, hi: int, avg: int) {
    SCALE * lo <= avg <= SCALE * hi
  }

  lemma InRange(v: int)
    requires -HALF_WORD <= v < HALF_WORD
    ensures Signed32(v) == v
  {
    ModSmall(v + HALF_WORD, WORD);
  }

  lemma NoWrap(avg: int, x: int, lo: int, hi: int)
    requires -0x8000 <= lo <= x <= hi < 0x8000 && Within(lo, hi, avg)
    ensures NextAvg(avg, x) == ExactAvg(avg, x) && Within(lo, hi, NextAvg(avg, x))
  {
    ExactBetween(avg, x);
    InRange(SCALE * x);
    InRange(SCALE * x - avg);
    InRange(ExactAvg(avg, x));
  }

  /** The valid samples lie in a range. */
  predicate Ranged(ins: seq<In>, lo: int, hi: int) {
    forall k :: 0 <= k < |ins| && ins[k].valid ==> lo <= ins[k].x <= hi
  }

  /**
   In every run of 16-bit samples, with any resets, gaps and disabled stretches, the mean stays in the hull
   of zero and the scaled samples, so the 32-bit register never wraps.
   */
  lemma {:induction false} MeanStaysInHull(ins: seq<In>, lo: int, hi: int)
    requires -0x8000 <= lo <= 0 <= hi < 0x8000 && Ranged(ins, lo, hi)
    ensures Within(lo, hi, Run(Initial(), ins).avg)
  {
    if ins != [] {
      var init, i := ins[..|ins| - 1], ins[|ins| - 1];
      MeanStaysInHull(init, lo, hi);
      if i.valid {
        NoWrap(Run(Initial(), init).avg, i.x, lo, hi);
      }
    }
  }

  /** The mean over the integers, with nothing truncated. */
  function ExactRun(ins: seq<In>): int {
    if ins == [] then 0
    else
      var avg, i := ExactRun(ins[..|ins| - 1]), ins[|ins| - 1];
      if i.rst then 0 else if i.valid && i.enable then ExactAvg(avg, i.x) else avg
  }

  /** The register holds the integer mean, however long the run. */
  lemma {:induction false} RegisterIsExact(ins: seq<In>)
    requires Ranged(ins, -0x8000, 0x7fff)
    ensures Run(Initial(), ins).avg == ExactRun(ins)
  {
    if ins != [] {
      var init, i := ins[..|ins| - 1], ins[|ins| - 1];
      RegisterIsExact(init);
      MeanStaysInHull(init, -0x8000, 0x7fff);
      if i.valid {
        NoWrap(ExactRun(init), i.x, -0x8000, 0x7fff);
      }
    }
  }

  lemma CorrectedExactIff(avg: int, x: int)
    requires -0x8000 <= x < 0x8000 && Within(-0x8000, 0x7fff, avg)
    ensures Corrected(avg, x) == x - avg / SCALE <==> -0x8000 <= x - avg / SCALE < 0x8000
  {
    var m := avg / SCALE;
    assert (x % 0x2_0000 - m % 0x2_0000) % 0x2_0000 == (x - m) % 0x2_0000 by {
      ModSub(x, m, 0x2_0000);
    }
  }

  /** For a 14-bit converter the 16-bit output is always the sample less the mean, exactly. */
  lemma TruncationIsExact(ins: seq<In>, i: In)
    requires Ranged(ins + [i], -0x2000, 0x1fff) && !i.rst && i.valid && i.enable
    ensures Run(Initial(), ins + [i]).out == i.x - Run(Initial(), ins).avg / SCALE
  {
    var all := ins + [i];
    assert all[..|ins|] == ins && all[|ins|] == i;
    assert forall k :: 0 <= k < |ins| ==> ins[k] == all[k];
    MeanStaysInHull(ins, -0x2000, 0x1fff);
    CorrectedExactIff(Run(Initial(), ins).avg, i.x);
  }

  // ---- settling under a constant input ----------------------------------------------------------------

  function NextError(e: int): int {
    e - e / SCALE
  }

  function ErrorAfter(e: int, n: nat): int {
    if n == 0 then e else NextError(ErrorAfter(e, n - 1))
  }

  predicate Settled(e: int) {
    0 <= e < SCALE
  }

  function Magnitude(e: int): nat {
    if e < 0 then -e else e
  }

  /** The error never overshoots; it strictly shrinks until it settles, and then stays. */
  lemma ErrorShrinks(e: int)
    ensures e >= 0 ==> NextError(e) >= 0
    ensures e <= 0 ==> NextError(e) <= 0
    ensures Settled(e) ==> NextError(e) == e
    ensures !Settled(e) ==> Magnitude(NextError(e)) < Magnitude(e)
  {
  }

  /** Where the error ends: at zero from above, and just short of one unit from below. */
  function Limit(e: int): int {
    if e <= 0 then 0 else if e < SCALE then e else SCALE - 1
  }

  lemma LimitKept(e: int)
    ensures Limit(NextError(e)) == Limit(e)
    ensures Settled(e) ==> Limit(e) == e
  {
  }

  lemma {:induction false} LimitAfter(e: int, n: nat)
    ensures Limit(ErrorAfter(e, n)) == Limit(e)
  {
    if n > 0 {
      LimitAfter(e, n - 1);
      LimitKept(ErrorAfter(e, n - 1));
    }
  }

  lemma {:induction false} ErrorAdd(e: int, m: nat, n: nat)
    ensures ErrorAfter(e, m + n) == ErrorAfter(ErrorAfter(e, m), n)
  {
    if n > 0 {
      ErrorAdd(e, m, n - 1);
    }
  }

  /** An error of more than `p` units loses at least `p` per sample. */
  lemma {:induction false} Descends(e: int, p: nat, n: nat)
    ensures Magnitude(ErrorAfter(e, n)) <= SCALE * p || Magnitude(ErrorAfter(e, n)) + n * p <= Magnitude(e)
  {
    if n > 0 {
      Descends(e, p, n - 1);
      var d := ErrorAfter(e, n - 1);
      ErrorShrinks(d);
      assert n * p == (n - 1) * p + p;
      assert Magnitude(d) > SCALE * p ==> Magnitude(NextError(d)) + p <= Magnitude(d);
    }
  }

  /** So an error is halved within 4096 samples. */
  lemma Halved(e: int, p: nat, n: nat)
    requires Magnitude(e) <= 2 * SCALE * p && n == SCALE
    ensures Magnitude(ErrorAfter(e, n)) <= SCALE * p
  {
    Descends(e, p, n);
  }

  lemma {:induction false} LastUnit(e: int, n: nat)
    ensures Settled(ErrorAfter(e, n)) || Magnitude(ErrorAfter(e, n)) + n <= Magnitude(e)
  {
    if n > 0 {
      LastUnit(e, n - 1);
      ErrorShrinks(ErrorAfter(e, n - 1));
    }
  }

  /** An error of at most 2^k units reaches its limit within 4096 (k + 1) samples. */
  lemma {:induction false} SettlesWithin(e: int, k: nat, n: nat)
    requires Magnitude(e) <= SCALE * Pow2(k) && n == SCALE
    ensures ErrorAfter(e, n * (k + 1)) == Limit(e)
    decreases k
  {
    var d := ErrorAfter(e, n);
    LimitAfter(e, n);
    if k == 0 {
      LastUnit(e, n);
      LimitKept(d);
    } else {
      Halved(e, Pow2(k - 1), n);
      SettlesWithin(d, k - 1, n);
      ErrorAdd(e, n, n * k);
    }
  }

  lemma {:induction false} LimitStays(e: int, n: nat)
    requires Settled(e)
    ensures ErrorAfter(e, n) == e
  {
    if n > 0 {
      LimitStays(e, n - 1);
    }
  }

  lemma SettlesBy(e: int, n: nat, k: nat, m: nat)
    requires Magnitude(e) <= SCALE * Pow2(k) && m == SCALE && n >= m * (k + 1)
    ensures ErrorAfter(e, n) == Limit(e)
  {
    SettlesWithin(e, k, m);
    ErrorAdd(e, m * (k + 1), n - m * (k + 1));
    LimitStays(Limit(e), n - m * (k + 1));
  }

  /** Valid samples in a run. */
  function Samples(ins: seq<In>): nat {
    if ins == [] then 0 else Samples(ins[..|ins| - 1]) + if ins[|ins| - 1].valid then 1 else 0
  }

  /** The remover runs, and every valid sample is `c`. */
  predicate Constant(ins: seq<In>, c: int) {
    forall k :: 0 <= k < |ins| ==> !ins[k].rst && ins[k].enable && (ins[k].valid ==> ins[k].x == c)
  }

  lemma ErrorStep(avg: int, c: int)
    requires Sample14(c) && Within(-0x2000, 0x1fff, avg)
    ensures SCALE * c - NextAvg(avg, c) == NextError(SCALE * c - avg)
    ensures Within(-0x2000, 0x1fff, NextAvg(avg, c))
  {
    NoWrap(avg, c, -0x2000, 0x1fff);
  }

  /** Under a constant input the error depends only on the number of valid samples, whatever the gaps. */
  lemma {:induction false} ErrorTracks(s: Remover, ins: seq<In>, c: int)
    requires Sample14(c) && Within(-0x2000, 0x1fff, s.avg) && Constant(ins, c)
    ensures SCALE * c - Run(s, ins).avg == ErrorAfter(SCALE * c - s.avg, Samples(ins))
    ensures Within(-0x2000, 0x1fff, Run(s, ins).avg)
  {
    if ins != [] {
      var init := ins[..|ins| - 1];
      ErrorTracks(s, init, c);
      ErrorStep(Run(s, init).avg, c);
    }
  }

  /** The output under a settled mean. */
  lemma SettledOutput(avg: int, c: int)
    requires Sample14(c) && Within(-0x2000, 0x1fff, avg) && Settled(SCALE * c - avg)
    ensures Corrected(avg, c) == if avg == SCALE * c then 0 else 1
  {
    CorrectedExactIff(avg, c);
  }

  /**
   From every reachable mean, after 61440 valid samples of a constant the error has reached its limit for
   good, and every further output is 0, or 1 when the mean came from below.
   */
  lemma ConstantSettles(s: Remover, ins: seq<In>, c: int, i: In)
    requires Sample14(c) && Within(-0x2000, 0x1fff, s.avg)
    requires Constant(ins + [i], c) && Samples(ins) >= SCALE * 15 && i.valid
    ensures SCALE * c - Run(s, ins).avg == Limit(SCALE * c - s.avg)
    ensures Run(s, ins + [i]).out == if s.avg >= SCALE * c then 0 else 1
  {
    var all, e := ins + [i], SCALE * c - s.avg;
    assert all[..|ins|] == ins && all[|ins|] == i;
    assert forall k :: 0 <= k < |ins| ==> ins[k] == all[k];
    ErrorTracks(s, ins, c);
    assert Pow2(14) == 0x4000;
    SettlesBy(e, Samples(ins), 14, SCALE);
    SettledOutput(Run(s, ins).avg, c);
  }

  /** Switched off, the block hands samples on as they are and keeps its mean; a gap is a gap. */
  lemma BypassPasses(s: Remover, ins: seq<In>, i: In)
    requires !i.rst
    ensures var r, r' := Run(s, ins), Run(s, ins + [i]);
            && r'.validOut == i.valid
            && (!i.enable || !i.valid ==> r'.avg == r.avg)
            && (!i.enable && i.valid ==> r'.out == i.x)
            && (!i.valid ==> r'.out == r.out)
  {
    assert (ins + [i])[..|ins|] == ins;
  }
}
