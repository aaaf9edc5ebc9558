/**
 Modular arithmetic of registers: an unbounded count kept in a register of fixed size.
 */
module Modular {

  /** Ranges of the 32-bit and 64-bit counters of the protocol. */
  const WORD := 0x1_0000_0000
  const STAMP := 0x1_0000_0000_0000_0000

  /** A C `int64_t`. */
  type int64 = x: int | -0x8000_0000_0000_0000 <= x < 0x8000_0000_0000_0000

  function Pow2(n: nat): (p: nat)
    ensures p > 0
  {
    if n == 0 then 1 else 2 * Pow2(n - 1)
  }

  /** Ticks of the ADC clock in a second. */
  const ADC_RATE := 250_000_000

  const HALF_WORD := 0x8000_0000

  /** What a 32-bit register holds after `v` is written to it, read as two's complement. */
  function Signed32(v: int): int {
    (v + HALF_WORD) % WORD - HALF_WORD
  }

  /** The low 16 bits, read as two's complement. */
  function Signed16(v: int): int {
    (v + 0x8000) % 0x1_0000 - 0x8000
  }

  lemma MulAtLeast(d: int, m: int)
    requires d >= 1 && m > 0
    ensures d * m >= m
  {
    assert (d - 1) * m >= 0;
  }

  /** Division with remainder is unique. */
  lemma DivModUnique(a: int, q: int, m: int, r: int)
    requires m > 0 && a == q * m + r && 0 <= r < m
    ensures a / m == q && a % m == r
  {
    var q', r' := a / m, a % m;
    var d := q - q';
    assert d * m == r' - r by {
      assert q * m - q' * m == (q - q') * m;
    }
    MulAtLeast(if d >= 1 then d else 1, m);
    MulAtLeast(if d <= -1 then -d else 1, m);
    assert d <= -1 ==> -d * m >= m;
    assert d == 0;
  }

  lemma ModSmall(a: int, m: int)
    requires 0 <= a < m
    ensures a % m == a && a / m == 0
  {
    DivModUnique(a, 0, m, a);
  }

  /** Adding whole turns does not move a register. */
  lemma ModAddMultiple(a: int, k: int, m: int)
    requires m > 0
    ensures (a + k * m) % m == a % m
  {
    var q := a / m;
    assert a + k * m == (q + k) * m + a % m;
    DivModUnique(a + k * m, q + k, m, a % m);
  }

  /** Reducing an operand first does not change a modular sum. */
  lemma ModAddLeft(a: int, b: int, m: int)
    requires m > 0
    ensures (a % m + b) % m == (a + b) % m
  {
    assert a == a / m * m + a % m;
    ModAddMultiple(a % m + b, a / m, m);
  }

  lemma ModSub(a: int, b: int, m: int)
    requires m > 0
    ensures (a % m - b % m) % m == (a - b) % m
  {
    assert a == a / m * m + a % m;
    assert b == b / m * m + b % m;
    assert a - b == a % m - b % m + (a / m - b / m) * m by {
      assert (a / m - b / m) * m == a / m * m - b / m * m;
    }
    ModAddMultiple(a % m - b % m, a / m - b / m, m);
  }

  /** Two counts less than one turn apart are equal when their registers are. */
  lemma ModEqualClose(a: int, b: int, m: int)
    requires 0 <= a - b < m
    requires a % m == b % m
    ensures a == b
  {
    ModSub(a, b, m);
    ModSmall(0, m);
    ModSmall(a - b, m);
  }
}
