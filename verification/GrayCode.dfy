/**
 Reflected binary (Gray) codes of an arbitrary width, as the asynchronous FIFO forms them
 with `(bin >> 1) ^ bin`. A register is a sequence of bits, least significant bit first.
 */
module GrayCode {
  import opened Modular

  /** The low `w` bits of `n`. */
  function BitsOf(n: nat, w: nat): (b: seq<bool>)
    ensures |b| == w
  {
    if w == 0 then [] else [n % 2 == 1] + BitsOf(n / 2, w - 1)
  }

  function Xor(a: seq<bool>, b: seq<bool>): (c: seq<bool>)
    requires |a| == |b|
    ensures |c| == |a| && forall i :: 0 <= i < |c| ==> c[i] == (a[i] != b[i])
  {
    seq(|a|, i requires 0 <= i < |a| => a[i] != b[i])
  }

  function LowGrayBit(n: nat): bool {
    (n % 2 == 1) != (n / 2 % 2 == 1)
  }

  /** The Gray code of `n` in a register of `w` bits: each bit tells whether two neighbours differ. */
  function Gray(n: nat, w: nat): (g: seq<bool>)
    ensures |g| == w
  {
    if w == 0 then [] else [LowGrayBit(n)] + Gray(n / 2, w - 1)
  }

  /** The register with its two top bits inverted, `{~g[w-1:w-2], g[w-3:0]}`. */
  function FlipTopTwo(g: seq<bool>): (f: seq<bool>)
    requires |g| >= 2
    ensures |f| == |g|
  {
    g[..|g| - 2] + [!g[|g| - 2], !g[|g| - 1]]
  }

  /** What a flip-flop may capture while its input changes from `a` to `b`: each bit is old or new. */
  function Capture(a: seq<bool>, b: seq<bool>, isNew: seq<bool>): (c: seq<bool>)
    requires |a| == |b|
    ensures |c| == |a|
  {
    seq(|a|, i requires 0 <= i < |a| => if i < |isNew| && isNew[i] then b[i] else a[i])
  }

  ghost predicate DiffersInOneBit(a: seq<bool>, b: seq<bool>) {
    |a| == |b| && exists i :: 0 <= i < |a| && b == a[i := !a[i]]
  }

  lemma XorStep(x: bool, a: seq<bool>, y: bool, b: seq<bool>)
    requires |a| == |b|
    ensures Xor([x] + a, [y] + b) == [x != y] + Xor(a, b)
  {
  }

  /** The code is what the FIFO computes with a shift and an exclusive or. */
  lemma {:induction false} GrayIsShiftXor(n: nat, w: nat)
    ensures Gray(n, w) == Xor(BitsOf(n / 2, w), BitsOf(n, w))
  {
    if w > 0 {
      GrayIsShiftXor(n / 2, w - 1);
      XorStep(n / 2 % 2 == 1, BitsOf(n / 2 / 2, w - 1), n % 2 == 1, BitsOf(n / 2, w - 1));
    }
  }

  /** Distinct pointers have distinct Gray codes, so comparing codes compares pointers. */
  lemma {:induction false} GrayInjective(n: nat, m: nat, w: nat)
    requires n < Pow2(w) && m < Pow2(w)
    ensures Gray(n, w) == Gray(m, w) <==> n == m
  {
    if w > 0 && Gray(n, w) == Gray(m, w) {
      assert Gray(n / 2, w - 1) == Gray(n, w)[1..] == Gray(m, w)[1..] == Gray(m / 2, w - 1);
      GrayInjective(n / 2, m / 2, w - 1);
      assert Gray(n, w)[0] == Gray(m, w)[0];
    }
  }

  /** The pointer after `n` in a range of `size`, wrapping to zero. */
  function Succ(n: nat, size: nat): (r: nat)
    requires n < size
    ensures r < size
  {
    if n + 1 == size then 0 else n + 1
  }

  lemma SuccIsModular(n: nat, size: nat)
    requires n < size
    ensures Succ(n, size) == (n + 1) % size
  {
    if n + 1 == size {
      DivModUnique(n + 1, 1, size, 0);
    } else {
      ModSmall(n + 1, size);
    }
  }

  /** The pointer half a range away from `m`. */
  function HalfTurn(m: nat, half: nat): (r: nat)
    requires m < 2 * half
    ensures r < 2 * half
  {
    if m < half then m + half else m - half
  }

  lemma HalfTurnIsModular(m: nat, half: nat)
    requires m < 2 * half
    ensures HalfTurn(m, half) == (m + half) % (2 * half)
  {
    if m < half {
      ModSmall(m + half, 2 * half);
    } else {
      DivModUnique(m + half, 1, 2 * half, m - half);
    }
  }

  /** Prepending the same bit keeps two codes one bit apart. */
  lemma OneBitUnderPrefix(x: bool, a: seq<bool>, b: seq<bool>)
    requires DiffersInOneBit(a, b)
    ensures DiffersInOneBit([x] + a, [x] + b)
  {
    var i :| 0 <= i < |a| && b == a[i := !a[i]];
    assert [x] + b == ([x] + a)[i + 1 := !([x] + a)[i + 1]];
  }

  /** Changing the first bit alone is a change of one bit. */
  lemma OneBitAtHead(x: bool, a: seq<bool>)
    ensures DiffersInOneBit([x] + a, [!x] + a)
  {
    assert [!x] + a == ([x] + a)[0 := !([x] + a)[0]];
  }

  /** Stepping an odd pointer steps its half, and the low Gray bit stays. */
  lemma OddStep(n: nat, q: nat)
    requires n < 4 * q && n % 2 == 1
    ensures Succ(n, 4 * q) / 2 == Succ(n / 2, 2 * q)
    ensures Succ(n, 4 * q) % 2 == 0
    ensures Succ(n / 2, 2 * q) % 2 != n / 2 % 2
  {
    var h := n / 2;
    assert n == 2 * h + 1;
    var k := h / 2;
    assert h == 2 * k || h == 2 * k + 1;
  }

  lemma GrayAdjacentEven(n: nat, w: nat)
    requires w >= 1 && n % 2 == 0
    ensures DiffersInOneBit(Gray(n, w), Gray(n + 1, w))
  {
    assert (n + 1) / 2 == n / 2;
    OneBitAtHead(LowGrayBit(n), Gray(n / 2, w - 1));
  }

  lemma GrayAdjacentOdd(n: nat, n': nat, w: nat)
    requires w >= 1 && n % 2 == 1 && n' % 2 == 0
    requires n' / 2 % 2 != n / 2 % 2
    requires DiffersInOneBit(Gray(n / 2, w - 1), Gray(n' / 2, w - 1))
    ensures DiffersInOneBit(Gray(n, w), Gray(n', w))
  {
    OneBitUnderPrefix(LowGrayBit(n), Gray(n / 2, w - 1), Gray(n' / 2, w - 1));
  }

  lemma EvenSucc(n: nat, w: nat)
    requires w >= 1 && n < Pow2(w) && n % 2 == 0
    ensures Succ(n, Pow2(w)) == n + 1
  {
    assert Pow2(w) == 2 * Pow2(w - 1);
  }

  lemma OddSucc(n: nat, w: nat, n': nat)
    requires w >= 2 && n < Pow2(w) && n % 2 == 1 && n' == Succ(n, Pow2(w))
    ensures n / 2 < Pow2(w - 1) && n' / 2 == Succ(n / 2, Pow2(w - 1))
    ensures n' % 2 == 0 && n' / 2 % 2 != n / 2 % 2
  {
    var q := Pow2(w - 2);
    assert Pow2(w - 1) == 2 * q && Pow2(w) == 4 * q;
    OddStep(n, q);
  }

  /** Consecutive pointers, the wrap from all ones to zero included, differ in exactly one Gray bit. */
  lemma {:induction false} GrayAdjacent(n: nat, w: nat, n': nat)
    requires w >= 1 && n < Pow2(w) && n' == Succ(n, Pow2(w))
    ensures DiffersInOneBit(Gray(n, w), Gray(n', w))
    decreases w
  {
    if n % 2 == 0 {
      EvenSucc(n, w);
      GrayAdjacentEven(n, w);
    } else if w == 1 {
      assert Pow2(1) == 2 && n == 1;
      OneBitAtHead(LowGrayBit(n), []);
    } else {
      OddSucc(n, w, n');
      GrayAdjacent(n / 2, w - 1, n' / 2);
      GrayAdjacentOdd(n, n', w);
    }
  }

  /** Sampling a code that changes in one bit yields the old code or the new one, never a third. */
  lemma CaptureIsOldOrNew(a: seq<bool>, b: seq<bool>, isNew: seq<bool>)
    requires DiffersInOneBit(a, b)
    ensures Capture(a, b, isNew) == a || Capture(a, b, isNew) == b
  {
    var i :| 0 <= i < |a| && b == a[i := !a[i]];
    assert Capture(a, b, isNew) == if i < |isNew| && isNew[i] then b else a;
  }

  /** A half turn halves to a half turn, and keeps the two low bits in a range of size 8q. */
  lemma HalfTurnHalves(m: nat, q: nat)
    requires m < 8 * q
    ensures HalfTurn(m, 4 * q) / 2 == HalfTurn(m / 2, 2 * q)
    ensures HalfTurn(m, 4 * q) % 2 == m % 2
    ensures HalfTurn(m / 2, 2 * q) % 2 == m / 2 % 2
  {
    var h := m / 2;
    assert m == 2 * h || m == 2 * h + 1;
  }

  lemma FlipUnderPrefix(x: bool, g: seq<bool>)
    requires |g| >= 2
    ensures FlipTopTwo([x] + g) == [x] + FlipTopTwo(g)
  {
    assert ([x] + g)[..|g| - 1] == [x] + g[..|g| - 2];
  }

  lemma FlipIsHalfTurnOfFour(m: nat)
    requires m < 4
    ensures FlipTopTwo(Gray(m, 2)) == Gray(HalfTurn(m, 2), 2)
  {
    var m' := HalfTurn(m, 2);
  }

  /** Inverting the two top bits of a code is adding half the pointer range. */
  lemma {:induction false} FlipIsHalfTurn(m: nat, w: nat)
    requires w >= 2 && m < Pow2(w)
    ensures m < 2 * Pow2(w - 1) && FlipTopTwo(Gray(m, w)) == Gray(HalfTurn(m, Pow2(w - 1)), w)
  {
    assert Pow2(w) == 2 * Pow2(w - 1);
    if w == 2 {
      assert Pow2(1) == 2;
      FlipIsHalfTurnOfFour(m);
    } else {
      var q := Pow2(w - 3);
      assert Pow2(w - 1) == 4 * q && Pow2(w - 2) == 2 * q;
      HalfTurnHalves(m, q);
      FlipIsHalfTurn(m / 2, w - 1);
      FlipUnderPrefix(LowGrayBit(m), Gray(m / 2, w - 1));
    }
  }

  /** The full test on Gray codes holds exactly when the pointers are half the range apart. */
  lemma FullTestExact(n: nat, m: nat, w: nat)
    requires w >= 2 && n < Pow2(w) && m < Pow2(w)
    ensures m < 2 * Pow2(w - 1)
    ensures Gray(n, w) == FlipTopTwo(Gray(m, w)) <==> n == HalfTurn(m, Pow2(w - 1))
  {
    FlipIsHalfTurn(m, w);
    GrayInjective(n, HalfTurn(m, Pow2(w - 1)), w);
  }
}
