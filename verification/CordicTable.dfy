/**
 The sixteen angles of the CORDIC are the arctangents of 1, 1/2, 1/4 and so on, to the nearest unit of 2^-32 turns.
 */
module CordicTable {
  import opened Cordic

  const PI := 3.14159265358979
  const TURN_UNITS := 4294967296.0

  function Power(x: real, n: nat): real {
    if n == 0 then 1.0 else Power(x, n - 1) * x
  }

  /** The first `n` terms of x - x^3 / 3 + x^5 / 5 - ..., the series of the arctangent. */
  function ArctanSum(x: real, n: nat): real {
    if n == 0 then 0.0
    else ArctanSum(x, n - 1) + (if n % 2 == 1 then 1.0 else -1.0) * Power(x, 2 * n - 1) / (2 * n - 1) as real
  }

  /** A term of the series with this power is below 0.05 units. */
  predicate Small(q: real, n: nat) {
    TURN_UNITS * q <= 0.1 * PI * (2 * n + 1) as real
  }

  /** Angle `i` is within 0.55 units of the sum, and the next term of the series is below 0.05 units. */
  ghost predicate IsArctan(i: nat, x: real, n: nat) {
    && -1.1 * PI <= Atan(i) as real * 2.0 * PI - TURN_UNITS * ArctanSum(x, n) <= 1.1 * PI
    && Small(Power(x, 2 * n + 1), n)
  }

  /** Sum `s` of `n` terms, the last power being `p`. */
  ghost predicate SumIs(x: real, n: nat, s: real, p: real) {
    n > 0 && ArctanSum(x, n) == s && Power(x, 2 * n - 1) == p
  }

  lemma FirstTerm(x: real)
    ensures SumIs(x, 1, x, x)
  {
    assert Power(x, 1) == Power(x, 0) * x;
    assert ArctanSum(x, 1) == ArctanSum(x, 0) + 1.0 * Power(x, 1) / 1.0;
  }

  lemma NextPower(x: real, n: nat, p: real, q: real)
    requires n > 0 && Power(x, 2 * n - 1) == p && q == p * x * x
    ensures Power(x, 2 * n + 1) == q
  {
    assert Power(x, 2 * n + 1) == Power(x, 2 * n) * x && Power(x, 2 * n) == Power(x, 2 * n - 1) * x;
  }

  lemma NextTerm(x: real, n: nat, s: real, p: real, s': real, p': real)
    requires SumIs(x, n, s, p) && p' == p * x * x
    requires s' == if n % 2 == 0 then s + p' / (2 * n + 1) as real else s - p' / (2 * n + 1) as real
    ensures SumIs(x, n + 1, s', p')
  {
    NextPower(x, n, p, p');
  }

  lemma Finish(i: nat, x: real, n: nat, s: real, p: real, q: real)
    requires SumIs(x, n, s, p) && q == p * x * x && Small(q, n)
    requires -1.1 * PI <= Atan(i) as real * 2.0 * PI - TURN_UNITS * s <= 1.1 * PI
    ensures IsArctan(i, x, n)
  {
    NextPower(x, n, p, q);
  }

  lemma Arctan1()
    ensures IsArctan(1, 1.0 / 2.0, 14)
  {
    var x := 1.0 / 2.0;
    FirstTerm(x);
    NextTerm(x, 1, 1.0 / 2.0, 1.0 / 2.0, 11.0 / 24.0, 1.0 / 8.0);
    NextTerm(x, 2, 11.0 / 24.0, 1.0 / 8.0, 223.0 / 480.0, 1.0 / 32.0);
    NextTerm(x, 3, 223.0 / 480.0, 1.0 / 32.0, 6229.0 / 13440.0, 1.0 / 128.0);
    NextTerm(x, 4, 6229.0 / 13440.0, 1.0 / 128.0, 74783.0 / 161280.0, 1.0 / 512.0);
    NextTerm(x, 5, 74783.0 / 161280.0, 1.0 / 512.0, 3290137.0 / 7096320.0, 1.0 / 2048.0);
    NextTerm(x, 6, 3290137.0 / 7096320.0, 1.0 / 2048.0, 171090589.0 / 369008640.0, 1.0 / 8192.0);
    NextTerm(x, 7, 171090589.0 / 369008640.0, 1.0 / 8192.0, 684359353.0 / 1476034560.0, 1.0 / 32768.0);
    NextTerm(x, 8, 684359353.0 / 1476034560.0, 1.0 / 32768.0, 46536481049.0 / 100370350080.0, 1.0 / 131072.0);
    NextTerm(x, 9, 46536481049.0 / 100370350080.0, 1.0 / 131072.0,
             3536771793959.0 / 7628146606080.0, 1.0 / 524288.0);
    NextTerm(x, 10, 3536771793959.0 / 7628146606080.0, 1.0 / 524288.0,
             14147087868671.0 / 30512586424320.0, 1.0 / 2097152.0);
    NextTerm(x, 11, 14147087868671.0 / 30512586424320.0, 1.0 / 2097152.0,
             1301532069368197.0 / 2807157951037440.0, 1.0 / 8388608.0);
    NextTerm(x, 12, 1301532069368197.0 / 2807157951037440.0, 1.0 / 8388608.0,
             26030641454291801.0 / 56143159020748800.0, 1.0 / 33554432.0);
    NextTerm(x, 13, 26030641454291801.0 / 56143159020748800.0, 1.0 / 33554432.0,
             312367697265590887.0 / 673717908248985600.0, 1.0 / 134217728.0);
    Finish(1, x, 14, 312367697265590887.0 / 673717908248985600.0, 1.0 / 134217728.0, 1.0 / 536870912.0);
  }

  lemma Arctan2()
    ensures IsArctan(2, 1.0 / 4.0, 7)
  {
    var x := 1.0 / 4.0;
    FirstTerm(x);
    NextTerm(x, 1, 1.0 / 4.0, 1.0 / 4.0, 47.0 / 192.0, 1.0 / 64.0);
    NextTerm(x, 2, 47.0 / 192.0, 1.0 / 64.0, 3763.0 / 15360.0, 1.0 / 1024.0);
    NextTerm(x, 3, 3763.0 / 15360.0, 1.0 / 1024.0, 421441.0 / 1720320.0, 1.0 / 16384.0);
    NextTerm(x, 4, 421441.0 / 1720320.0, 1.0 / 16384.0, 20229203.0 / 82575360.0, 1.0 / 262144.0);
    NextTerm(x, 5, 20229203.0 / 82575360.0, 1.0 / 262144.0, 3560339413.0 / 14533263360.0, 1.0 / 4194304.0);
    NextTerm(x, 6, 3560339413.0 / 14533263360.0, 1.0 / 4194304.0,
             740550601369.0 / 3022918778880.0, 1.0 / 67108864.0);
    Finish(2, x, 7, 740550601369.0 / 3022918778880.0, 1.0 / 67108864.0, 1.0 / 1073741824.0);
  }

  lemma Arctan3()
    ensures IsArctan(3, 1.0 / 8.0, 5)
  {
    var x := 1.0 / 8.0;
    FirstTerm(x);
    NextTerm(x, 1, 1.0 / 8.0, 1.0 / 8.0, 191.0 / 1536.0, 1.0 / 512.0);
    NextTerm(x, 2, 191.0 / 1536.0, 1.0 / 512.0, 61123.0 / 491520.0, 1.0 / 32768.0);
    NextTerm(x, 3, 61123.0 / 491520.0, 1.0 / 32768.0, 27383089.0 / 220200960.0, 1.0 / 2097152.0);
    NextTerm(x, 4, 27383089.0 / 220200960.0, 1.0 / 2097152.0, 5257553123.0 / 42278584320.0, 1.0 / 134217728.0);
    Finish(3, x, 5, 5257553123.0 / 42278584320.0, 1.0 / 134217728.0, 1.0 / 8589934592.0);
  }

  lemma Arctan4()
    ensures IsArctan(4, 1.0 / 16.0, 4)
  {
    var x := 1.0 / 16.0;
    FirstTerm(x);
    NextTerm(x, 1, 1.0 / 16.0, 1.0 / 16.0, 767.0 / 12288.0, 1.0 / 4096.0);
    NextTerm(x, 2, 767.0 / 12288.0, 1.0 / 4096.0, 981763.0 / 15728640.0, 1.0 / 1048576.0);
    NextTerm(x, 3, 981763.0 / 15728640.0, 1.0 / 1048576.0, 1759319281.0 / 28185722880.0, 1.0 / 268435456.0);
    Finish(4, x, 4, 1759319281.0 / 28185722880.0, 1.0 / 268435456.0, 1.0 / 68719476736.0);
  }

  lemma Arctan5()
    ensures IsArctan(5, 1.0 / 32.0, 3)
  {
    var x := 1.0 / 32.0;
    FirstTerm(x);
    NextTerm(x, 1, 1.0 / 32.0, 1.0 / 32.0, 3071.0 / 98304.0, 1.0 / 32768.0);
    NextTerm(x, 2, 3071.0 / 98304.0, 1.0 / 32768.0, 15723523.0 / 503316480.0, 1.0 / 33554432.0);
    Finish(5, x, 3, 15723523.0 / 503316480.0, 1.0 / 33554432.0, 1.0 / 34359738368.0);
  }

  lemma Arctan6()
    ensures IsArctan(6, 1.0 / 64.0, 3)
  {
    var x := 1.0 / 64.0;
    FirstTerm(x);
    NextTerm(x, 1, 1.0 / 64.0, 1.0 / 64.0, 12287.0 / 786432.0, 1.0 / 262144.0);
    NextTerm(x, 2, 12287.0 / 786432.0, 1.0 / 262144.0, 251637763.0 / 16106127360.0, 1.0 / 1073741824.0);
    Finish(6, x, 3, 251637763.0 / 16106127360.0, 1.0 / 1073741824.0, 1.0 / 4398046511104.0);
  }

  lemma Arctan7()
    ensures IsArctan(7, 1.0 / 128.0, 2)
  {
    var x := 1.0 / 128.0;
    FirstTerm(x);
    NextTerm(x, 1, 1.0 / 128.0, 1.0 / 128.0, 49151.0 / 6291456.0, 1.0 / 2097152.0);
    Finish(7, x, 2, 49151.0 / 6291456.0, 1.0 / 2097152.0, 1.0 / 34359738368.0);
  }

  lemma Arctan8()
    ensures IsArctan(8, 1.0 / 256.0, 2)
  {
    var x := 1.0 / 256.0;
    FirstTerm(x);
    NextTerm(x, 1, 1.0 / 256.0, 1.0 / 256.0, 196607.0 / 50331648.0, 1.0 / 16777216.0);
    Finish(8, x, 2, 196607.0 / 50331648.0, 1.0 / 16777216.0, 1.0 / 1099511627776.0);
  }

  lemma Arctan9()
    ensures IsArctan(9, 1.0 / 512.0, 2)
  {
    var x := 1.0 / 512.0;
    FirstTerm(x);
    NextTerm(x, 1, 1.0 / 512.0, 1.0 / 512.0, 786431.0 / 402653184.0, 1.0 / 134217728.0);
    Finish(9, x, 2, 786431.0 / 402653184.0, 1.0 / 134217728.0, 1.0 / 35184372088832.0);
  }

  lemma Arctan10()
    ensures IsArctan(10, 1.0 / 1024.0, 2)
  {
    var x := 1.0 / 1024.0;
    FirstTerm(x);
    NextTerm(x, 1, 1.0 / 1024.0, 1.0 / 1024.0, 3145727.0 / 3221225472.0, 1.0 / 1073741824.0);
    Finish(10, x, 2, 3145727.0 / 3221225472.0, 1.0 / 1073741824.0, 1.0 / 1125899906842624.0);
  }

  lemma Arctan11()
    ensures IsArctan(11, 1.0 / 2048.0, 1)
  {
    var x := 1.0 / 2048.0;
    FirstTerm(x);
    Finish(11, x, 1, 1.0 / 2048.0, 1.0 / 2048.0, 1.0 / 8589934592.0);
  }

  lemma Arctan12()
    ensures IsArctan(12, 1.0 / 4096.0, 1)
  {
    var x := 1.0 / 4096.0;
    FirstTerm(x);
    Finish(12, x, 1, 1.0 / 4096.0, 1.0 / 4096.0, 1.0 / 68719476736.0);
  }

  lemma Arctan13()
    ensures IsArctan(13, 1.0 / 8192.0, 1)
  {
    var x := 1.0 / 8192.0;
    FirstTerm(x);
    Finish(13, x, 1, 1.0 / 8192.0, 1.0 / 8192.0, 1.0 / 549755813888.0);
  }

  lemma Arctan14()
    ensures IsArctan(14, 1.0 / 16384.0, 1)
  {
    var x := 1.0 / 16384.0;
    FirstTerm(x);
    Finish(14, x, 1, 1.0 / 16384.0, 1.0 / 16384.0, 1.0 / 4398046511104.0);
  }

  lemma Arctan15()
    ensures IsArctan(15, 1.0 / 32768.0, 1)
  {
    var x := 1.0 / 32768.0;
    FirstTerm(x);
    Finish(15, x, 1, 1.0 / 32768.0, 1.0 / 32768.0, 1.0 / 35184372088832.0);
  }

  /** Terms that are enough for angle `i`. */
  function Terms(i: nat): nat {
    match i
    case 1 => 14
    case 2 => 7
    case 3 => 5
    case 4 => 4
    case 5 => 3
    case 6 => 3
    case 7 => 2
    case _ => if i <= 10 then 2 else 1
  }

  lemma Slopes(i: nat, x: real)
    requires 0 < i && Halve(1.0, i - 1) == 2.0 * x
    ensures Halve(1.0, i) == x
  {
  }

  /** Angle 0 is an eighth of a turn, and angle `i` is the arctangent of 2^-i to the nearest unit. */
  lemma TableIsArctan(i: nat)
    requires i < STAGES
    ensures i == 0 ==> 8.0 * Atan(i) as real == TURN_UNITS
    ensures i > 0 ==> IsArctan(i, Halve(1.0, i), Terms(i))
  {
    Slopes(1, 1.0 / 2.0);
    Slopes(2, 1.0 / 4.0);
    Slopes(3, 1.0 / 8.0);
    Slopes(4, 1.0 / 16.0);
    Slopes(5, 1.0 / 32.0);
    Slopes(6, 1.0 / 64.0);
    Slopes(7, 1.0 / 128.0);
    Slopes(8, 1.0 / 256.0);
    Slopes(9, 1.0 / 512.0);
    Slopes(10, 1.0 / 1024.0);
    Slopes(11, 1.0 / 2048.0);
    Slopes(12, 1.0 / 4096.0);
    Slopes(13, 1.0 / 8192.0);
    Slopes(14, 1.0 / 16384.0);
    Slopes(15, 1.0 / 32768.0);
    match i {
      case 0 =>
      case 1 => Arctan1();
      case 2 => Arctan2();
      case 3 => Arctan3();
      case 4 => Arctan4();
      case 5 => Arctan5();
      case 6 => Arctan6();
      case 7 => Arctan7();
      case 8 => Arctan8();
      case 9 => Arctan9();
      case 10 => Arctan10();
      case 11 => Arctan11();
      case 12 => Arctan12();
      case 13 => Arctan13();
      case 14 => Arctan14();
      case 15 => Arctan15();
    }
  }
}
