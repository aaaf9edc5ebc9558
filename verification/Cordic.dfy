/**
 The oscillator: a phase accumulator that feeds a pipeline of 16 CORDIC rotations.
 */
module Cordic {
  import opened Modular

  const STAGES := 16
  const CORDIC_K := 19898
  const QUARTER := 0x4000_0000

  function Signed20(v: int): int {
    (v + 0x8_0000) % 0x10_0000 - 0x8_0000
  }

  /** Arithmetic shift right. */
  function Shr(v: int, n: nat): int {
    if n == 0 then v else Shr(v, n - 1) / 2
  }

  /** Rotation angles, a full turn being 2^32. */
  function Atan(i: nat): nat {
    match i
    case 0 => 0x2000_0000
    case 1 => 0x12e4_051e
    case 2 => 0x09fb_385b
    case 3 => 0x0511_11d4
    case 4 => 0x028b_0d43
    case 5 => 0x0145_d7e1
    case 6 => 0x00a2_f61e
    case 7 => 0x0051_7c55
    case 8 => 0x0028_be53
    case 9 => 0x0014_5f2f
    case 10 => 0x000a_2f98
    case 11 => 0x0005_17cc
    case 12 => 0x0002_8be6
    case 13 => 0x0001_45f3
    case 14 => 0x0000_a2fa
    case 15 => 0x0000_517d
    case _ => 0
  }

  // ---- the pipeline --------------------------------------------------------------------------------------

  datatype Stage = Stage(valid: bool, x: int, y: int, z: int, quadrant: nat)

  datatype Out = Out(valid: bool, cos: int, sin: int)

  datatype Pipeline = Pipeline(pipe: seq<Stage>, out: Out)

  datatype In = In(rst: bool, valid: bool, phase: nat)

  const BLANK := Stage(false, 0, 0, 0, 0)

  function Cleared(): (p: Pipeline)
    ensures |p.pipe| == STAGES + 1
  {
    Pipeline(seq(STAGES + 1, _ => BLANK), Out(false, 0, 0))
  }

  /** The vector enters on the x axis, with the phase within its quadrant. */
  function Load(i: In): Stage {
    Stage(i.valid, CORDIC_K, 0, i.phase % QUARTER, i.phase / QUARTER % 4)
  }

  function TurnX(i: nat, z: int, x: int, y: int): int {
    Signed20(if z >= 0 then x - Shr(y, i) else x + Shr(y, i))
  }

  function TurnY(i: nat, z: int, x: int, y: int): int {
    Signed20(if z >= 0 then y + Shr(x, i) else y - Shr(x, i))
  }

  function TurnZ(atan: nat, z: int): int {
    Signed32(if z >= 0 then z - atan else z + atan)
  }

  /** One rotation, towards a zero angle. */
  function Rotate(i: nat, s: Stage): Stage {
    s.(x := TurnX(i, s.z, s.x, s.y), y := TurnY(i, s.z, s.x, s.y), z := TurnZ(Atan(i), s.z))
  }

  function SatAmp(v: int): int {
    if v > 32767 then 32767 else if v < -32768 then -32768 else v
  }

  /** The vector turned back into its quadrant, saturated to 16 bits. */
  function Output(s: Stage): Out {
    match s.quadrant
    case 0 => Out(s.valid, SatAmp(s.x), SatAmp(s.y))
    case 1 => Out(s.valid, SatAmp(Signed20(-s.y)), SatAmp(s.x))
    case 2 => Out(s.valid, SatAmp(Signed20(-s.x)), SatAmp(Signed20(-s.y)))
    case _ => Out(s.valid, SatAmp(s.y), SatAmp(Signed20(-s.x)))
  }

  /** One clock edge: every register takes its new value from the old ones. */
  function Step(p: Pipeline, i: In): (r: Pipeline)
    requires |p.pipe| == STAGES + 1
    ensures |r.pipe| == STAGES + 1
  {
    if i.rst then Cleared()
    else
      Pipeline(seq(STAGES + 1, k requires 0 <= k <= STAGES => if k == 0 then Load(i) else Rotate(k - 1, p.pipe[k - 1])),
               Output(p.pipe[STAGES]))
  }

  function Run(p: Pipeline, ins: seq<In>): (r: Pipeline)
    requires |p.pipe| == STAGES + 1
    ensures |r.pipe| == STAGES + 1
  {
    if ins == [] then p else Step(Run(p, ins[..|ins| - 1]), ins[|ins| - 1])
  }

  class CordicSincos {
    const pipe: array<Stage>
    var out: Out

    ghost predicate Valid()
      reads this
    {
      pipe.Length == STAGES + 1
    }

    ghost function State(): (p: Pipeline)
      requires Valid()
      reads this, pipe
      ensures |p.pipe| == STAGES + 1
    {
      Pipeline(pipe[..], out)
    }

    constructor ()
      ensures Valid() && fresh(pipe) && State() == Cleared()
    {
      pipe := new Stage[STAGES + 1](_ => BLANK);
      out := Out(false, 0, 0);
    }

    method Reset()
      requires Valid()
      modifies this, pipe
      ensures Valid() && State() == Cleared()
    {
      out := Out(false, 0, 0);
      for i := 0 to STAGES + 1
        invariant forall k :: 0 <= k < i ==> pipe[k] == BLANK
        invariant out == Out(false, 0, 0)
      {
        pipe[i] := BLANK;
      }
      assert pipe[..] == Cleared().pipe;
    }

    /** Moves every stage on, the last one first, so that each reads the value before the edge. */
    method Shift(i: In)
      requires Valid()
      modifies pipe
      ensures Valid() && pipe[0] == Load(i)
      ensures forall k :: 0 < k <= STAGES ==> pipe[k] == Rotate(k - 1, old(pipe[k - 1]))
    {
      for j := STAGES downto 0
        invariant forall k :: 0 <= k <= j ==> pipe[k] == old(pipe[k])
        invariant forall k :: j < k <= STAGES ==> pipe[k] == Rotate(k - 1, old(pipe[k - 1]))
      {
        pipe[j + 1] := Rotate(j, pipe[j]);
      }
      pipe[0] := Load(i);
    }

    method Clock(i: In)
      requires Valid()
      modifies this, pipe
      ensures Valid() && State() == Step(old(State()), i)
    {
      if i.rst {
        Reset();
      } else {
        out := Output(pipe[STAGES]);
        Shift(i);
        assert pipe[..] == Step(old(State()), i).pipe;
      }
    }
  }

  /** The first `n` rotations one after another. */
  function Rotated(n: nat, s: Stage): Stage {
    if n == 0 then s else Rotate(n - 1, Rotated(n - 1, s))
  }

  predicate NoReset(ins: seq<In>) {
    forall k :: 0 <= k < |ins| ==> !ins[k].rst
  }

  /** Stage `j` holds the input of `j` clocks ago, rotated `j` times, whatever the pipeline held before. */
  lemma {:induction false} StageIsRotated(p: Pipeline, ins: seq<In>, j: nat)
    requires |p.pipe| == STAGES + 1 && NoReset(ins) && j <= STAGES && j < |ins|
    ensures Run(p, ins).pipe[j] == Rotated(j, Load(ins[|ins| - 1 - j]))
    decreases |ins|
  {
    if j > 0 {
      StageIsRotated(p, ins[..|ins| - 1], j - 1);
    }
  }

  /** A phase comes out 18 clock edges after it went in, fully rotated, with its valid bit. */
  lemma OutputIsRotated(p: Pipeline, ins: seq<In>)
    requires |p.pipe| == STAGES + 1 && NoReset(ins) && |ins| >= STAGES + 2
    ensures Run(p, ins).out == Output(Rotated(STAGES, Load(ins[|ins| - STAGES - 2])))
    ensures Run(p, ins).out.valid == ins[|ins| - 18].valid
  {
    StageIsRotated(p, ins[..|ins| - 1], STAGES);
    RotatedAngle(STAGES, Load(ins[|ins| - STAGES - 2]));
  }

  // ---- the angle ------------------------------------------------------------------------------------------

  /** The angle register after `n` rotations by the angles of a table: the vector has no part in it. */
  function Angle(table: seq<nat>, n: nat, z: int): int
    requires n <= |table|
  {
    if n == 0 then z else TurnZ(table[n - 1], Angle(table, n - 1, z))
  }

  /** What the rotations from `i` on can still turn, and the last angle once more. */
  function Tail(table: seq<nat>, i: nat): nat
    requires i <= |table|
    decreases |table| - i
  {
    if table == [] then 0
    else if i == |table| then table[|table| - 1]
    else table[i] + Tail(table, i + 1)
  }

  /** No angle exceeds what the later ones can undo: the condition for the rotations to converge. */
  ghost predicate Converging(table: seq<nat>) {
    forall i :: 0 <= i < |table| ==> table[i] <= Tail(table, i + 1) && Tail(table, i) < HALF_WORD
  }

  predicate AngleWithin(z: int, bound: int) {
    -bound <= z <= bound
  }

  lemma AngleStep(z: int, atan: nat, tail: nat)
    requires AngleWithin(z, atan + tail) && atan <= tail && atan + tail < HALF_WORD
    ensures AngleWithin(TurnZ(atan, z), tail)
    ensures TurnZ(atan, z) == if z >= 0 then z - atan else z + atan
  {
  }

  /** The angle turned so far, by the signs of the rotations. */
  function Turned(table: seq<nat>, n: nat, z: int): int
    requires n <= |table|
  {
    if n == 0 then 0
    else Turned(table, n - 1, z) + if Angle(table, n - 1, z) >= 0 then table[n - 1] else -(table[n - 1] as int)
  }

  /** After `n` rotations the angle left is the angle less what was turned, without wrap, and within the tail. */
  lemma {:induction false} AngleConverges(table: seq<nat>, n: nat, z: int)
    requires Converging(table) && n <= |table| && AngleWithin(z, Tail(table, 0))
    ensures AngleWithin(Angle(table, n, z), Tail(table, n))
    ensures Angle(table, n, z) == z - Turned(table, n, z)
  {
    if n > 0 {
      AngleConverges(table, n - 1, z);
      AngleStep(Angle(table, n - 1, z), table[n - 1], Tail(table, n));
    }
  }

  /** The table of the sixteen stages. */
  function Angles(): (t: seq<nat>)
    ensures |t| == STAGES && forall i :: 0 <= i < STAGES ==> t[i] == Atan(i)
  {
    seq(STAGES, i requires i >= 0 => Atan(i))
  }

  lemma {:induction false} RotatedAngle(n: nat, s: Stage)
    requires n <= STAGES
    ensures Rotated(n, s).z == Angle(Angles(), n, s.z)
    ensures Rotated(n, s).valid == s.valid && Rotated(n, s).quadrant == s.quadrant
  {
    if n > 0 {
      RotatedAngle(n - 1, s);
    }
  }

  lemma TableConverges(t: seq<nat>)
    requires t == Angles()
    ensures Converging(t) && Tail(t, 0) >= QUARTER && Tail(t, STAGES) == 0x517d
  {
    assert Tail(t, 16) == 0x517d;
    assert Tail(t, 15) == 0xa2fa;
    assert Tail(t, 14) == 0x1_45f4;
    assert Tail(t, 13) == 0x2_8be7;
    assert Tail(t, 12) == 0x5_17cd;
    assert Tail(t, 11) == 0xa_2f99;
    assert Tail(t, 10) == 0x14_5f31;
    assert Tail(t, 9) == 0x28_be60;
    assert Tail(t, 8) == 0x51_7cb3;
    assert Tail(t, 7) == 0xa2_f908;
    assert Tail(t, 6) == 0x145_ef26;
    assert Tail(t, 5) == 0x28b_c707;
    assert Tail(t, 4) == 0x516_d44a;
    assert Tail(t, 3) == 0xa27_e61e;
    assert Tail(t, 2) == 0x1423_1e79;
    assert Tail(t, 1) == 0x2707_2397;
    assert Tail(t, 0) == 0x4707_2397;
  }

  /** For every phase the angle left after the sixteen rotations is at most 0x517d, with no wrap on the way. */
  lemma ResidualAngle(i: In, n: nat)
    requires n <= STAGES
    ensures var z := i.phase % QUARTER;
            && Rotated(n, Load(i)).z == z - Turned(Angles(), n, z)
            && AngleWithin(Rotated(n, Load(i)).z, Tail(Angles(), n))
            && AngleWithin(Rotated(STAGES, Load(i)).z, 0x517d)
  {
    var z, t := i.phase % QUARTER, Angles();
    TableConverges(t);
    RotatedAngle(n, Load(i));
    RotatedAngle(STAGES, Load(i));
    AngleConverges(t, n, z);
    AngleConverges(t, STAGES, z);
  }

  // ---- the vector -----------------------------------------------------------------------------------------

  /** A real divided by 2 `n` times. */
  function Halve(v: real, n: nat): real {
    if n == 0 then v else Halve(v, n - 1) / 2.0
  }

  datatype Vector = Vector(x: real, y: real)

  /** The rotation with nothing rounded, in the direction of the sign of `z`. */
  function ExactRotate(i: nat, z: int, v: Vector): Vector {
    if z >= 0 then Vector(v.x - Halve(v.y, i), v.y + Halve(v.x, i))
    else Vector(v.x + Halve(v.y, i), v.y - Halve(v.x, i))
  }

  ghost predicate TurnsAt(vs: seq<Vector>, zs: seq<int>, k: nat)
    requires k < |zs| < |vs|
  {
    vs[k + 1] == ExactRotate(k, zs[k], vs[k])
  }

  /** The vectors that start at the same point and turn over the reals, by the signs of given angles. */
  ghost predicate Turns(vs: seq<Vector>, zs: seq<int>) {
    && |vs| == |zs| + 1
    && vs[0] == Vector(CORDIC_K as real, 0.0)
    && forall k :: 0 <= k < |zs| ==> TurnsAt(vs, zs, k)
  }

  function Norm2(v: Vector): real {
    v.x * v.x + v.y * v.y
  }

  /** One plus 4 to the power of -i: what a rotation does to the squared length. */
  function Growth(i: nat): real {
    1.0 + Halve(1.0, i + i)
  }

  /** The growth of the squared length over `n` rotations. */
  function Gain(n: nat): real {
    if n == 0 then 1.0 else Gain(n - 1) * Growth(n - 1)
  }

  lemma {:induction false} HalveScales(v: real, n: nat)
    ensures Halve(v, n) == v * Halve(1.0, n)
  {
    if n > 0 {
      HalveScales(v, n - 1);
    }
  }

  lemma {:induction false} HalveTwice(m: nat, n: nat)
    ensures Halve(1.0, m + n) == Halve(1.0, m) * Halve(1.0, n)
  {
    if n > 0 {
      HalveTwice(m, n - 1);
    }
  }

  lemma RotationGrows(x: real, y: real, t: real)
    ensures (x - y * t) * (x - y * t) + (y + x * t) * (y + x * t) == (x * x + y * y) * (1.0 + t * t)
    ensures (x + y * t) * (x + y * t) + (y - x * t) * (y - x * t) == (x * x + y * y) * (1.0 + t * t)
  {
  }

  lemma NormStep(i: nat, z: int, v: Vector)
    ensures Norm2(ExactRotate(i, z, v)) == Norm2(v) * Growth(i)
  {
    HalveScales(v.x, i);
    HalveScales(v.y, i);
    HalveTwice(i, i);
    RotationGrows(v.x, v.y, Halve(1.0, i));
  }

  const K2 := 395_930_404.0  // the square of CORDIC_K

  lemma Regroup(a: real, b: real, c: real, l: real)
    requires l == a * b
    ensures l * c == a * (b * c)
  {
  }

  lemma LengthStep(i: nat, z: int, v: Vector, g: real)
    requires Norm2(v) == K2 * g
    ensures Norm2(ExactRotate(i, z, v)) == K2 * (g * Growth(i))
  {
    NormStep(i, z, v);
    Regroup(K2, g, Growth(i), Norm2(v));
  }

  /** Whatever the directions, every rotation brings the vector to the same length, exactly. */
  lemma {:induction false} LengthIsGain(vs: seq<Vector>, zs: seq<int>, n: nat)
    requires Turns(vs, zs) && n <= |zs|
    ensures Norm2(vs[n]) == K2 * Gain(n)
  {
    if n > 0 {
      LengthIsGain(vs, zs, n - 1);
      assert TurnsAt(vs, zs, n - 1);
      LengthStep(n - 1, zs[n - 1], vs[n - 1], Gain(n - 1));
    }
  }

  lemma {:induction false} GrowthValue(i: nat)
    ensures Growth(i) == 1.0 + Halve(1.0, i + i) && Growth(i) > 1.0
  {
    HalvePositive(i + i);
  }

  lemma {:induction false} HalvePositive(n: nat)
    ensures Halve(1.0, n) > 0.0
  {
    if n > 0 {
      HalvePositive(n - 1);
    }
  }

  lemma MulMonotone(a: real, b: real, c: real)
    requires a <= b && c >= 0.0
    ensures a * c <= b * c
  {
  }

  lemma GainStep(n: nat, low: real, high: real)
    requires low <= Gain(n) <= high
    ensures low * Growth(n) <= Gain(n + 1) <= high * Growth(n)
  {
    GrowthValue(n);
    MulMonotone(low, Gain(n), Growth(n));
    MulMonotone(Gain(n), high, Growth(n));
  }

  lemma HalveTable()
    ensures Halve(1.0, 0) == 1.0 / 1.0 && Halve(1.0, 1) == 1.0 / 2.0
    ensures Halve(1.0, 2) == 1.0 / 4.0 && Halve(1.0, 3) == 1.0 / 8.0
    ensures Halve(1.0, 4) == 1.0 / 16.0 && Halve(1.0, 5) == 1.0 / 32.0
    ensures Halve(1.0, 6) == 1.0 / 64.0 && Halve(1.0, 7) == 1.0 / 128.0
    ensures Halve(1.0, 8) == 1.0 / 256.0 && Halve(1.0, 9) == 1.0 / 512.0
    ensures Halve(1.0, 10) == 1.0 / 1024.0 && Halve(1.0, 11) == 1.0 / 2048.0
    ensures Halve(1.0, 12) == 1.0 / 4096.0 && Halve(1.0, 13) == 1.0 / 8192.0
    ensures Halve(1.0, 14) == 1.0 / 16384.0 && Halve(1.0, 15) == 1.0 / 32768.0
  {
  }

  lemma GrowthTable()
    ensures Growth(0) == 1.0 + 1.0 / 1.0 && Growth(1) == 1.0 + 1.0 / 4.0
    ensures Growth(2) == 1.0 + 1.0 / 16.0 && Growth(3) == 1.0 + 1.0 / 64.0
    ensures Growth(4) == 1.0 + 1.0 / 256.0 && Growth(5) == 1.0 + 1.0 / 1024.0
    ensures Growth(6) == 1.0 + 1.0 / 4096.0 && Growth(7) == 1.0 + 1.0 / 16384.0
    ensures Growth(8) == 1.0 + 1.0 / 65536.0 && Growth(9) == 1.0 + 1.0 / 262144.0
    ensures Growth(10) == 1.0 + 1.0 / 1048576.0 && Growth(11) == 1.0 + 1.0 / 4194304.0
    ensures Growth(12) == 1.0 + 1.0 / 16777216.0 && Growth(13) == 1.0 + 1.0 / 67108864.0
    ensures Growth(14) == 1.0 + 1.0 / 268435456.0 && Growth(15) == 1.0 + 1.0 / 1073741824.0
  {
    HalveTable();
    HalveTwice(0, 0);
    HalveTwice(1, 1);
    HalveTwice(2, 2);
    HalveTwice(3, 3);
    HalveTwice(4, 4);
    HalveTwice(5, 5);
    HalveTwice(6, 6);
    HalveTwice(7, 7);
    HalveTwice(8, 8);
    HalveTwice(9, 9);
    HalveTwice(10, 10);
    HalveTwice(11, 11);
    HalveTwice(12, 12);
    HalveTwice(13, 13);
    HalveTwice(14, 14);
    HalveTwice(15, 15);
  }

  lemma GainBounds()
    ensures 2.711819341 <= Gain(16) <= 2.711819354
  {
    GrowthTable();
    GainStep(0, 1.0, 1.0);
    assert 2.000000000 <= Gain(1) <= 2.000000000;
    GainStep(1, 2.000000000, 2.000000000);
    assert 2.500000000 <= Gain(2) <= 2.500000000;
    GainStep(2, 2.500000000, 2.500000000);
    assert 2.656250000 <= Gain(3) <= 2.656250000;
    GainStep(3, 2.656250000, 2.656250000);
    assert 2.697753906 <= Gain(4) <= 2.697753907;
    GainStep(4, 2.697753906, 2.697753907);
    assert 2.708292007 <= Gain(5) <= 2.708292009;
    GainStep(5, 2.708292007, 2.708292009);
    assert 2.710936823 <= Gain(6) <= 2.710936826;
    GainStep(6, 2.710936823, 2.710936826);
    assert 2.711598672 <= Gain(7) <= 2.711598676;
    GainStep(7, 2.711598672, 2.711598676);
    assert 2.711764174 <= Gain(8) <= 2.711764179;
    GainStep(8, 2.711764174, 2.711764179);
    assert 2.711805552 <= Gain(9) <= 2.711805558;
    GainStep(9, 2.711805552, 2.711805558);
    assert 2.711815896 <= Gain(10) <= 2.711815903;
    GainStep(10, 2.711815896, 2.711815903);
    assert 2.711818482 <= Gain(11) <= 2.711818490;
    GainStep(11, 2.711818482, 2.711818490);
    assert 2.711819128 <= Gain(12) <= 2.711819137;
    GainStep(12, 2.711819128, 2.711819137);
    assert 2.711819289 <= Gain(13) <= 2.711819299;
    GainStep(13, 2.711819289, 2.711819299);
    assert 2.711819329 <= Gain(14) <= 2.711819340;
    GainStep(14, 2.711819329, 2.711819340);
    assert 2.711819339 <= Gain(15) <= 2.711819351;
    GainStep(15, 2.711819339, 2.711819351);
    assert 2.711819341 <= Gain(16) <= 2.711819354;
  }

  // ---- rounding -------------------------------------------------------------------------------------------

  /** Shifting right is halving rounded down. */
  lemma {:induction false} ShrRoundsDown(v: int, n: nat)
    ensures Shr(v, n) as real <= Halve(v as real, n) < Shr(v, n) as real + 1.0
  {
    if n > 0 {
      ShrRoundsDown(v, n - 1);
      var u := Shr(v, n - 1);
      assert 2 * (u / 2) <= u <= 2 * (u / 2) + 1;
    }
  }

  predicate Near(a: real, b: real, e: real) {
    -e <= a - b <= e
  }

  lemma {:induction false} HalveNear(a: real, b: real, e: real, n: nat)
    requires Near(a, b, e)
    ensures Near(Halve(a, n), Halve(b, n), Halve(e, n))
  {
    if n > 0 {
      HalveNear(a, b, e, n - 1);
    }
  }

  /** What the registers may be off after `n` rotations; the first rotation shifts nothing out. */
  function ErrorBound(n: nat): real {
    if n == 0 then 0.0
    else ErrorBound(n - 1) + Halve(ErrorBound(n - 1), n - 1) + if n == 1 then 0.0 else 1.0
  }

  lemma ShrNear(v: int, exact: real, e: real, i: nat)
    requires Near(v as real, exact, e)
    ensures Near(Shr(v, i) as real, Halve(exact, i), Halve(e, i) + if i == 0 then 0.0 else 1.0)
  {
    HalveNear(v as real, exact, e, i);
    ShrRoundsDown(v, i);
  }

  predicate NearVector(x: int, y: int, v: Vector, e: real) {
    Near(x as real, v.x, e) && Near(y as real, v.y, e)
  }

  lemma SquareGrows(a: real, b: real)
    requires 0.0 <= a < b
    ensures a * a < b * b
  {
    var s, d := b + a, b - a;
    assert s * d > 0.0;
    assert s * d == b * b - a * a;
  }

  lemma CoordinateBound(x: real, y: real, r: real)
    requires r >= 0.0 && x * x + y * y <= r * r
    ensures -r <= x <= r
  {
    assert y * y >= 0.0;
    if x > r {
      SquareGrows(r, x);
    } else if x < -r {
      SquareGrows(r, -x);
    }
  }

  lemma {:induction false} GainGrows(m: nat, n: nat)
    requires m <= n
    ensures 0.0 < Gain(m) <= Gain(n)
  {
    if m < n {
      GainGrows(m, n - 1);
      GainStep(n - 1, Gain(n - 1), Gain(n - 1));
      GrowthValue(n - 1);
      MulMonotone(1.0, Growth(n - 1), Gain(n - 1));
    } else if n > 0 {
      GainGrows(n - 1, n - 1);
      GrowthValue(n - 1);
      MulMonotone(1.0, Growth(n - 1), Gain(n - 1));
    }
  }

  lemma LengthWithin(v: Vector, g: real)
    requires Norm2(v) == K2 * g && g <= 2.711819354
    ensures -32768.0 <= v.x <= 32768.0 && -32768.0 <= v.y <= 32768.0
  {
    assert K2 * g <= 32768.0 * 32768.0;
    CoordinateBound(v.x, v.y, 32768.0);
    CoordinateBound(v.y, v.x, 32768.0);
  }

  /** No rotation takes the exact vector beyond 32768. */
  lemma VectorBound(vs: seq<Vector>, zs: seq<int>, n: nat)
    requires Turns(vs, zs) && n <= |zs| <= STAGES
    ensures -32768.0 <= vs[n].x <= 32768.0 && -32768.0 <= vs[n].y <= 32768.0
  {
    LengthIsGain(vs, zs, n);
    GainGrows(n, STAGES);
    GainBounds();
    LengthWithin(vs[n], Gain(n));
  }

  lemma {:induction false} HalveAdd(a: real, b: real, n: nat)
    ensures Halve(a + b, n) == Halve(a, n) + Halve(b, n)
  {
    if n > 0 {
      HalveAdd(a, b, n - 1);
    }
  }

  lemma {:induction false} HalveMonotone(a: real, b: real, n: nat)
    requires a <= b
    ensures Halve(a, n) <= Halve(b, n)
  {
    if n > 0 {
      HalveMonotone(a, b, n - 1);
    }
  }

  /** After `n` rotations the registers are off by less than n + 1. */
  lemma {:induction false} ErrorBounds(n: nat)
    requires n >= 2
    ensures 1.0 <= ErrorBound(n) <= n as real + 1.0 - Halve(2.0 * n as real + 4.0, n) <= n as real + 1.0
  {
    HalveMonotone(0.0, 2.0 * n as real + 4.0, n);
    HalveZero(n);
    if n == 2 {
      assert ErrorBound(2) == 1.0;
      assert Halve(8.0, 2) == 2.0;
    } else {
      var m := (n - 1) as real;
      ErrorBounds(n - 1);
      HalveMonotone(ErrorBound(n - 1), m + 1.0, n - 1);
      HalveMonotone(0.0, ErrorBound(n - 1), n - 1);
      HalveZero(n - 1);
      HalveAdd(m + 1.0, m + 3.0, n - 1);
      HalveAdd(m + 3.0, m + 3.0, n - 1);
      assert (m + 1.0) + (m + 3.0) == 2.0 * m + 4.0 && (m + 3.0) + (m + 3.0) == 2.0 * n as real + 4.0;
    }
  }

  lemma {:induction false} HalveZero(n: nat)
    ensures Halve(0.0, n) == 0.0
  {
    if n > 0 {
      HalveZero(n - 1);
    }
  }

  lemma SmallError(n: nat)
    requires n <= STAGES
    ensures 0.0 <= ErrorBound(n) <= 17.0
  {
    if n >= 2 {
      ErrorBounds(n);
    }
  }

  /** A coordinate within 32768 that is at most 17 off fits a 20-bit register. */
  lemma NoWrap20(v: int, exact: real, e: real)
    requires Near(v as real, exact, e) && e <= 17.0 && -32768.0 <= exact <= 32768.0
    ensures Signed20(v) == v && Signed20(-v) == -v
  {
    assert -32785.0 <= v as real <= 32785.0;
  }

  lemma TurnNear(i: nat, z: int, x: int, y: int, v: Vector, w: Vector, e: real, e': real)
    requires NearVector(x, y, v, e) && w == ExactRotate(i, z, v) && e' == e + Halve(e, i) + if i == 0 then 0.0 else 1.0
    requires e' <= 17.0 && -32768.0 <= w.x <= 32768.0 && -32768.0 <= w.y <= 32768.0
    ensures NearVector(TurnX(i, z, x, y), TurnY(i, z, x, y), w, e')
    ensures TurnX(i, z, x, y) == if z >= 0 then x - Shr(y, i) else x + Shr(y, i)
    ensures TurnY(i, z, x, y) == if z >= 0 then y + Shr(x, i) else y - Shr(x, i)
  {
    ShrNear(x, v.x, e, i);
    ShrNear(y, v.y, e, i);
    NoWrap20(if z >= 0 then x - Shr(y, i) else x + Shr(y, i), w.x, e');
    NoWrap20(if z >= 0 then y + Shr(x, i) else y - Shr(x, i), w.y, e');
  }

  /** The rotation loses nothing to the 20-bit registers. */
  predicate Unwrapped(i: nat, s: Stage) {
    && Rotate(i, s).x == (if s.z >= 0 then s.x - Shr(s.y, i) else s.x + Shr(s.y, i))
    && Rotate(i, s).y == (if s.z >= 0 then s.y + Shr(s.x, i) else s.y - Shr(s.x, i))
  }

  lemma RotateNear(i: nat, s: Stage, v: Vector, w: Vector, e: real, e': real)
    requires NearVector(s.x, s.y, v, e) && w == ExactRotate(i, s.z, v) && e' == e + Halve(e, i) + if i ==
            0 then 0.0 else 1.0
    requires e' <= 17.0 && -32768.0 <= w.x <= 32768.0 && -32768.0 <= w.y <= 32768.0
    ensures NearVector(Rotate(i, s).x, Rotate(i, s).y, w, e') && Unwrapped(i, s)
  {
    TurnNear(i, s.z, s.x, s.y, v, w, e, e');
  }

  ghost predicate RotatesAt(ss: seq<Stage>, k: nat)
    requires k + 1 < |ss|
  {
    ss[k + 1] == Rotate(k, ss[k])
  }

  /** The contents of the stages as one input passes through them. */
  ghost predicate Rotates(ss: seq<Stage>) {
    && |ss| == STAGES + 1
    && ss[0].x == CORDIC_K && ss[0].y == 0
    && forall k :: 0 <= k < STAGES ==> RotatesAt(ss, k)
  }

  ghost function Angles16(ss: seq<Stage>): (zs: seq<int>)
    requires |ss| == STAGES + 1
    ensures |zs| == STAGES && forall k :: 0 <= k < STAGES ==> zs[k] == ss[k].z
  {
    seq(STAGES, k requires 0 <= k < STAGES => ss[k].z)
  }

  /** The registers follow the exact vector to within the rounding, and never wrap. */
  lemma {:induction false} VectorTracks(ss: seq<Stage>, vs: seq<Vector>, zs: seq<int>, n: nat)
    requires Rotates(ss) && zs == Angles16(ss) && Turns(vs, zs) && n <= STAGES
    ensures NearVector(ss[n].x, ss[n].y, vs[n], ErrorBound(n)) && (n > 0 ==> Unwrapped(n - 1, ss[n - 1]))
  {
    if n > 0 {
      VectorTracks(ss, vs, zs, n - 1);
      assert RotatesAt(ss, n - 1) && TurnsAt(vs, zs, n - 1);
      VectorBound(vs, zs, n);
      SmallError(n);
      RotateNear(n - 1, ss[n - 1], vs[n - 1], vs[n], ErrorBound(n - 1), ErrorBound(n));
    }
  }

  /** The stages that an input passes through. */
  ghost function StagesOf(i: In): (ss: seq<Stage>)
    ensures Rotates(ss) && forall k :: 0 <= k <= STAGES ==> ss[k] == Rotated(k, Load(i))
  {
    var ss := seq(STAGES + 1, k requires k >= 0 => Rotated(k, Load(i)));
    assert forall k :: 0 <= k < STAGES ==> RotatesAt(ss, k);
    ss
  }

  /** The directions that the angle register takes for an input. */
  ghost function Directions(i: In): (zs: seq<int>)
    ensures |zs| == STAGES && forall k :: 0 <= k < STAGES ==> zs[k] == Rotated(k, Load(i)).z
  {
    Angles16(StagesOf(i))
  }

  // ---- the outputs ----------------------------------------------------------------------------------------

  ghost function ExactVectors(zs: seq<int>): (vs: seq<Vector>)
    ensures Turns(vs, zs)
  {
    if zs == [] then [Vector(CORDIC_K as real, 0.0)]
    else
      var n := |zs| - 1;
      var vs := ExactVectors(zs[..n]);
      var all := vs + [ExactRotate(n, zs[n], vs[n])];
      assert Turns(all, zs) by {
        forall k | 0 <= k < |zs|
          ensures TurnsAt(all, zs, k)
        {
          assert k == n || TurnsAt(vs, zs[..n], k);
        }
      }
      all
  }

  /** The exact vector turned on by whole quadrants. */
  ghost function InQuadrant(v: Vector, quadrant: nat): Vector {
    match quadrant
    case 0 => v
    case 1 => Vector(-v.y, v.x)
    case 2 => Vector(-v.x, -v.y)
    case _ => Vector(v.y, -v.x)
  }

  /** The exact vector for an input. */
  ghost function ExactOutput(i: In): Vector {
    InQuadrant(ExactVectors(Directions(i))[STAGES], i.phase / QUARTER % 4)
  }

  lemma SatNear(v: int, exact: real)
    requires Near(v as real, exact, 17.0) && -32768.0 <= exact <= 32768.0
    ensures Near(SatAmp(v) as real, exact, 17.0) && Near(SatAmp(Signed20(-v)) as real, -exact, 17.0)
  {
    NoWrap20(v, exact, 17.0);
  }

  lemma OutputNear(s: Stage, v: Vector)
    requires NearVector(s.x, s.y, v, 17.0) && -32768.0 <= v.x <= 32768.0 && -32768.0 <= v.y <= 32768.0
    ensures NearVector(Output(s).cos, Output(s).sin, InQuadrant(v, s.quadrant), 17.0)
  {
    SatNear(s.x, v.x);
    SatNear(s.y, v.y);
  }

  /** For every phase the outputs are within 17 of the exact vector. */
  lemma OutputIsAccurate(i: In)
    ensures NearVector(Output(Rotated(STAGES, Load(i))).cos, Output(Rotated(STAGES, Load(i))).sin, ExactOutput(i), 17.0)
  {
    var zs := Directions(i);
    var vs := ExactVectors(zs);
    VectorTracks(StagesOf(i), vs, zs, STAGES);
    SmallError(STAGES);
    VectorBound(vs, zs, STAGES);
    RotatedAngle(STAGES, Load(i));
    OutputNear(Rotated(STAGES, Load(i)), vs[STAGES]);
  }

  /** The outputs fit their 16 bits, whatever the pipeline holds. */
  lemma OutputsFit(p: Pipeline, ins: seq<In>)
    requires |p.pipe| == STAGES + 1 && ins != []
    ensures var out := Run(p, ins).out; -0x8000 <= out.cos < 0x8000 && -0x8000 <= out.sin < 0x8000
  {
  }

  /** Both outputs are within 17 of the exact vector for a phase. */
  ghost predicate IsTurnedTo(out: Out, phase: nat) {
    NearVector(out.cos, out.sin, ExactOutput(In(false, true, phase)), 17.0)
  }

  /** The valid bit has no part in the vector. */
  lemma VectorOfPhase(valid: bool, phase: nat)
    ensures var i := In(false, valid, phase); IsTurnedTo(Output(Rotated(STAGES, Load(i))), phase)
  {
    var i, j := In(false, valid, phase), In(false, true, phase);
    OutputIsAccurate(j);
    SameVector(STAGES, Load(i), Load(j));
  }

  lemma {:induction false} SameVector(n: nat, s: Stage, t: Stage)
    requires s == t.(valid := s.valid)
    ensures Rotated(n, s) == Rotated(n, t).(valid := Rotated(n, s).valid)
  {
    if n > 0 {
      SameVector(n - 1, s, t);
    }
  }

  lemma QuadrantKeepsLength(v: Vector, quadrant: nat)
    ensures Norm2(InQuadrant(v, quadrant)) == Norm2(v)
  {
  }

  lemma GainRange(g: real)
    requires 2.711819341 <= g <= 2.711819354
    ensures 32767.0 * 32767.0 < K2 * g < 32768.0 * 32768.0
  {
  }

  /** The exact vector has one length for all phases, between 32767 and 32768. */
  lemma OutputLength(i: In)
    ensures Norm2(ExactOutput(i)) == K2 * Gain(STAGES)
    ensures 32767.0 * 32767.0 < K2 * Gain(STAGES) < 32768.0 * 32768.0
  {
    var zs := Directions(i);
    LengthIsGain(ExactVectors(zs), zs, STAGES);
    QuadrantKeepsLength(ExactVectors(zs)[STAGES], i.phase / QUARTER % 4);
    GainBounds();
    GainRange(Gain(STAGES));
  }
}
