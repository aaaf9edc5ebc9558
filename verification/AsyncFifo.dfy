/**
 The dual-clock AXI-Stream FIFO: Gray-coded pointers cross between two unrelated clocks
 through two-stage synchronisers, and each side computes its own full or empty flag.
 */
module AsyncFifo {
  import opened GrayCode
  import opened Modular

  /** Registers clocked by `s_clk`: the write side. */
  datatype WriteRegs = WriteRegs(bin: nat, gray: seq<bool>, seen1: seq<bool>, seen2: seq<bool>, full: bool)

  /** Registers clocked by `m_clk`: the read side. */
  datatype ReadRegs = ReadRegs(bin: nat, gray: seq<bool>, seen1: seq<bool>, seen2: seq<bool>, empty: bool)

  datatype Fifo<T> = Fifo(mem: seq<T>, s: WriteRegs, m: ReadRegs)

  /** Inputs of the two sides at a clock edge. */
  datatype WriteIn<T> = WriteIn(rst: bool, valid: bool, data: T)
  datatype ReadIn = ReadIn(rst: bool, ready: bool)

  /**
   One instant at which a clock rises. When both rise together each synchroniser samples a pointer
   that is changing, and the masks choose which of its bits are captured new.
   */
  datatype Edge<T> =
    | SClk(w: WriteIn<T>)
    | MClk(r: ReadIn)
    | Both(w: WriteIn<T>, r: ReadIn, sNew: seq<bool>, mNew: seq<bool>)

  function WriteReset(width: nat): WriteRegs {
    WriteRegs(0, Gray(0, width), Gray(0, width), Gray(0, width), false)
  }

  function ReadReset(width: nat): ReadRegs {
    ReadRegs(0, Gray(0, width), Gray(0, width), Gray(0, width), true)
  }

  predicate Pushes<T>(s: WriteRegs, w: WriteIn<T>) {
    !w.rst && w.valid && !s.full
  }

  predicate Pops(m: ReadRegs, r: ReadIn) {
    !r.rst && r.ready && !m.empty
  }

  function WriteNext<T>(a: nat, s: WriteRegs, w: WriteIn<T>, seen: seq<bool>): WriteRegs
    requires s.bin < Pow2(a + 1) && |s.seen2| >= 2
  {
    if w.rst then WriteReset(a + 1)
    else
      var bin := if Pushes(s, w) then Succ(s.bin, Pow2(a + 1)) else s.bin;
      var gray := Gray(bin, a + 1);
      WriteRegs(bin, gray, seen, s.seen1, gray == FlipTopTwo(s.seen2))
  }

  function ReadNext(a: nat, m: ReadRegs, r: ReadIn, seen: seq<bool>): ReadRegs
    requires m.bin < Pow2(a + 1)
  {
    if r.rst then ReadReset(a + 1)
    else
      var bin := if Pops(m, r) then Succ(m.bin, Pow2(a + 1)) else m.bin;
      var gray := Gray(bin, a + 1);
      ReadRegs(bin, gray, seen, m.seen1, gray == m.seen2)
  }

  /** Registers have their declared widths; `a` is ADDR_WIDTH, at least 2 by the full test's slices. */
  predicate Sized<T>(a: nat, f: Fifo<T>) {
    && a >= 2
    && |f.mem| == Pow2(a)
    && f.s.bin < Pow2(a + 1) && f.m.bin < Pow2(a + 1)
    && |f.s.gray| == |f.s.seen1| == |f.s.seen2| == a + 1
    && |f.m.gray| == |f.m.seen1| == |f.m.seen2| == a + 1
  }

  function MemNext<T>(a: nat, f: Fifo<T>, w: WriteIn<T>): (mem: seq<T>)
    requires Sized(a, f)
    ensures |mem| == |f.mem|
  {
    if Pushes(f.s, w) then f.mem[f.s.bin % Pow2(a) := w.data] else f.mem
  }

  function Next<T>(a: nat, f: Fifo<T>, e: Edge<T>): (f': Fifo<T>)
    requires Sized(a, f)
    ensures Sized(a, f')
  {
    match e
    case SClk(w) => Fifo(MemNext(a, f, w), WriteNext(a, f.s, w, f.m.gray), f.m)
    case MClk(r) => f.(m := ReadNext(a, f.m, r, f.s.gray))
    case Both(w, r, sNew, mNew) =>
      var s' := WriteNext(a, f.s, w, f.m.gray);
      var m' := ReadNext(a, f.m, r, f.s.gray);
      Fifo(MemNext(a, f, w),
           WriteNext(a, f.s, w, Capture(f.m.gray, m'.gray, sNew)),
           ReadNext(a, f.m, r, Capture(f.s.gray, s'.gray, mNew)))
  }

  /** The word on `m_tdata`. */
  function Front<T>(a: nat, f: Fifo<T>): T
    requires Sized(a, f)
  {
    f.mem[f.m.bin % Pow2(a)]
  }

  /** A run so far: the hardware, every word accepted and delivered, and which sides left reset. */
  datatype Trace<T> = Trace(f: Fifo<T>, pushed: seq<T>, popped: seq<T>, sLive: bool, mLive: bool)

  predicate HasS<T>(e: Edge<T>) { e.SClk? || e.Both? }
  predicate HasM<T>(e: Edge<T>) { e.MClk? || e.Both? }

  function Advance<T>(a: nat, t: Trace<T>, e: Edge<T>): (t': Trace<T>)
    requires Sized(a, t.f)
    ensures Sized(a, t'.f)
  {
    Trace(
      Next(a, t.f, e),
      t.pushed + (if HasS(e) && Pushes(t.f.s, e.w) then [e.w.data] else []),
      t.popped + (if HasM(e) && Pops(t.f.m, e.r) then [Front(a, t.f)] else []),
      t.sLive || (HasS(e) && !e.w.rst),
      t.mLive || (HasM(e) && !e.r.rst))
  }

  /** Power-up: both sides reset, memory contents arbitrary. */
  function Start<T>(a: nat, mem: seq<T>): Trace<T> {
    Trace(Fifo(mem, WriteReset(a + 1), ReadReset(a + 1)), [], [], false, false)
  }

  function Run<T>(a: nat, mem: seq<T>, es: seq<Edge<T>>): (t: Trace<T>)
    requires a >= 2 && |mem| == Pow2(a)
    ensures Sized(a, t.f)
  {
    if es == [] then Start(a, mem) else Advance(a, Run(a, mem, es[..|es| - 1]), es[|es| - 1])
  }

  /** Neither side is reset again after its release; the two releases may be staggered. */
  predicate ResetsFirst<T>(es: seq<Edge<T>>) {
    && (forall i, j :: 0 <= i < j < |es| && HasS(es[i]) && HasS(es[j]) && es[j].w.rst ==> es[i].w.rst)
    && (forall i, j :: 0 <= i < j < |es| && HasM(es[i]) && HasM(es[j]) && es[j].r.rst ==> es[i].r.rst)
  }

  /**
   The counts that the synchroniser stages stand for: `r1`, `r2` are words the write side knows to be
   popped, `w1`, `w2` words the read side knows to be pushed.
   */
  datatype Views = Views(r1: nat, r2: nat, w1: nat, w2: nat)

  ghost predicate WriteInv<T>(a: nat, t: Trace<T>, v: Views)
    requires Sized(a, t.f)
  {
    && t.f.s.bin == |t.pushed| % Pow2(a + 1)
    && t.f.s.gray == Gray(t.f.s.bin, a + 1)
    && t.f.s.seen1 == Gray(v.r1 % Pow2(a + 1), a + 1)
    && t.f.s.seen2 == Gray(v.r2 % Pow2(a + 1), a + 1)
    && v.r2 <= v.r1 <= |t.popped|
    && |t.pushed| <= v.r2 + Pow2(a)
    && (!t.f.s.full ==> |t.pushed| < v.r2 + Pow2(a))
    && (!t.sLive ==> t.f.s == WriteReset(a + 1) && |t.pushed| == v.r1 == v.r2 == 0)
  }

  ghost predicate ReadInv<T>(a: nat, t: Trace<T>, v: Views)
    requires Sized(a, t.f)
  {
    && t.f.m.bin == |t.popped| % Pow2(a + 1)
    && t.f.m.gray == Gray(t.f.m.bin, a + 1)
    && t.f.m.seen1 == Gray(v.w1 % Pow2(a + 1), a + 1)
    && t.f.m.seen2 == Gray(v.w2 % Pow2(a + 1), a + 1)
    && |t.popped| <= v.w2 <= v.w1 <= |t.pushed|
    && (!t.f.m.empty ==> |t.popped| < v.w2)
    && (!t.mLive ==> t.f.m == ReadReset(a + 1) && |t.popped| == v.w1 == v.w2 == 0)
  }

  /** Memory, pushed and popped words as a queue: the unread words are in their slots. */
  ghost predicate Queued<T>(mem: seq<T>, pushed: seq<T>, popped: seq<T>)
    requires |mem| > 0
  {
    && popped <= pushed
    && |pushed| <= |popped| + |mem|
    && forall k :: |popped| <= k < |pushed| ==> mem[k % |mem|] == pushed[k]
  }

  ghost predicate DataInv<T>(a: nat, t: Trace<T>)
    requires Sized(a, t.f)
  {
    Queued(t.f.mem, t.pushed, t.popped)
  }

  ghost predicate Inv<T>(a: nat, t: Trace<T>, v: Views) {
    Sized(a, t.f) && WriteInv(a, t, v) && ReadInv(a, t, v) && DataInv(a, t)
  }

  // ---- pointers as counts -------------------------------------------------------------------

  lemma PointerStep(n: nat, size: nat)
    requires size > 0
    ensures n % size < size && Succ(n % size, size) == (n + 1) % size
  {
    SuccIsModular(n % size, size);
    ModAddLeft(n, 1, size);
  }

  /** The address bits of a pointer are the count modulo the depth. */
  lemma SlotOfPointer(n: nat, depth: nat)
    requires depth > 0
    ensures n % (2 * depth) % depth == n % depth
  {
    var q := n / (2 * depth);
    assert n == n % (2 * depth) + 2 * q * depth by {
      assert n == 2 * depth * q + n % (2 * depth);
      assert 2 * depth * q == 2 * q * depth;
    }
    ModAddMultiple(n % (2 * depth), 2 * q, depth);
  }

  /** The registered full test, read as counts. */
  lemma FullMeansFull(a: nat, p: nat, r: nat)
    requires a >= 2 && r <= p <= r + Pow2(a)
    ensures Gray(p % Pow2(a + 1), a + 1) == FlipTopTwo(Gray(r % Pow2(a + 1), a + 1)) <==> p == r + Pow2(a)
  {
    var depth := Pow2(a);
    var size := Pow2(a + 1);
    assert size == 2 * depth;
    FullTestExact(p % size, r % size, a + 1);
    HalfTurnIsModular(r % size, depth);
    ModAddLeft(r, depth, size);
    if p % size == (r + depth) % size {
      ModEqualClose(r + depth, p, size);
    }
  }

  /** The registered empty test, read as counts. */
  lemma EmptyMeansEmpty(a: nat, q: nat, w: nat)
    requires a >= 2 && q <= w <= q + Pow2(a)
    ensures Gray(q % Pow2(a + 1), a + 1) == Gray(w % Pow2(a + 1), a + 1) <==> q == w
  {
    var size := Pow2(a + 1);
    assert size == 2 * Pow2(a);
    GrayInjective(q % size, w % size, a + 1);
    if q % size == w % size {
      ModEqualClose(w, q, size);
    }
  }

  /** A synchroniser that samples a pointer stepping from `n` to `n'` captures `n` or `n'`. */
  lemma CapturedCount(a: nat, n: nat, n': nat, mask: seq<bool>) returns (c: nat)
    requires n' == n || n' == n + 1
    ensures c == n || c == n'
    ensures Capture(Gray(n % Pow2(a + 1), a + 1), Gray(n' % Pow2(a + 1), a + 1), mask) == Gray(c % Pow2(a + 1), a + 1)
  {
    var size := Pow2(a + 1);
    var g, g' := Gray(n % size, a + 1), Gray(n' % size, a + 1);
    if n' == n {
      assert Capture(g, g, mask) == g;
      c := n;
    } else {
      PointerStep(n, size);
      GrayAdjacent(n % size, a + 1, Succ(n % size, size));
      CaptureIsOldOrNew(g, g', mask);
      c := if Capture(g, g', mask) == g then n else n';
    }
  }

  // ---- one edge keeps the invariant ---------------------------------------------------------

  /** The write registers out of reset: `p` words pushed, stages that know `r1` and `r2` pops. */
  lemma WriteRegsStep<T>(a: nat, s: WriteRegs, w: WriteIn<T>, r1: nat, r2: nat, seen: seq<bool>, p: nat, p': nat)
    requires a >= 2 && !w.rst && s.bin == p % Pow2(a + 1)
    requires s.seen1 == Gray(r1 % Pow2(a + 1), a + 1) && s.seen2 == Gray(r2 % Pow2(a + 1), a + 1)
    requires r2 <= p <= p' <= r2 + Pow2(a) && p' == p + if Pushes(s, w) then 1 else 0
    ensures var s' := WriteNext(a, s, w, seen);
            && s'.bin == p' % Pow2(a + 1) && s'.gray == Gray(s'.bin, a + 1)
            && s'.seen1 == seen && s'.seen2 == s.seen1
            && (s'.full <==> p' == r2 + Pow2(a))
  {
    PointerStep(p, Pow2(a + 1));
    FullFlag(a, Gray(p' % Pow2(a + 1), a + 1), s.seen2, p', r2);
  }

  lemma FullFlag(a: nat, g: seq<bool>, seen: seq<bool>, p: nat, r: nat)
    requires a >= 2 && r <= p <= r + Pow2(a)
    requires g == Gray(p % Pow2(a + 1), a + 1) && seen == Gray(r % Pow2(a + 1), a + 1)
    ensures |seen| >= 2 && (g == FlipTopTwo(seen) <==> p == r + Pow2(a))
  {
    FullMeansFull(a, p, r);
  }

  /** A write-side edge that captures the read pointer of count `seen`. */
  lemma WriteSideStep<T>(a: nat, t: Trace<T>, v: Views, w: WriteIn<T>, seen: nat, p': nat)
    requires Inv(a, t, v) && v.r1 <= seen
    requires w.rst ==> !t.sLive
    requires p' == |t.pushed| + if Pushes(t.f.s, w) then 1 else 0
    ensures var s' := WriteNext(a, t.f.s, w, Gray(seen % Pow2(a + 1), a + 1));
            && s'.gray == Gray(s'.bin, a + 1)
            && s'.bin == p' % Pow2(a + 1)
            && (!w.rst ==>
                  && s'.seen1 == Gray(seen % Pow2(a + 1), a + 1)
                  && s'.seen2 == Gray(v.r1 % Pow2(a + 1), a + 1)
                  && (s'.full <==> p' == v.r2 + Pow2(a)))
            && (w.rst ==> s' == t.f.s && p' == 0)
  {
    if w.rst {
      ModSmall(0, Pow2(a + 1));
    } else {
      WriteRegsStep(a, t.f.s, w, v.r1, v.r2, Gray(seen % Pow2(a + 1), a + 1), |t.pushed|, p');
    }
  }

  /** The read registers out of reset: `q` words popped, stages that know `w1` and `w2` pushes. */
  lemma ReadRegsStep(a: nat, m: ReadRegs, r: ReadIn, w1: nat, w2: nat, seen: seq<bool>, q: nat, q': nat)
    requires a >= 2 && !r.rst && m.bin == q % Pow2(a + 1)
    requires m.seen1 == Gray(w1 % Pow2(a + 1), a + 1) && m.seen2 == Gray(w2 % Pow2(a + 1), a + 1)
    requires q <= q' <= w2 <= q + Pow2(a) && q' == q + if Pops(m, r) then 1 else 0
    ensures var m' := ReadNext(a, m, r, seen);
            && m'.bin == q' % Pow2(a + 1) && m'.gray == Gray(m'.bin, a + 1)
            && m'.seen1 == seen && m'.seen2 == m.seen1
            && (m'.empty <==> q' == w2)
  {
    PointerStep(q, Pow2(a + 1));
    EmptyMeansEmpty(a, q', w2);
  }

  /** A read-side edge that captures the write pointer of count `seen`. */
  lemma ReadSideStep<T>(a: nat, t: Trace<T>, v: Views, r: ReadIn, seen: nat, q': nat)
    requires Inv(a, t, v) && v.w1 <= seen
    requires r.rst ==> !t.mLive
    requires q' == |t.popped| + if Pops(t.f.m, r) then 1 else 0
    ensures var m' := ReadNext(a, t.f.m, r, Gray(seen % Pow2(a + 1), a + 1));
            && m'.gray == Gray(m'.bin, a + 1)
            && m'.bin == q' % Pow2(a + 1)
            && (!r.rst ==>
                  && m'.seen1 == Gray(seen % Pow2(a + 1), a + 1)
                  && m'.seen2 == Gray(v.w1 % Pow2(a + 1), a + 1)
                  && (m'.empty <==> q' == v.w2))
            && (r.rst ==> m' == t.f.m && q' == 0)
  {
    if r.rst {
      ModSmall(0, Pow2(a + 1));
    } else {
      ReadRegsStep(a, t.f.m, r, v.w1, v.w2, Gray(seen % Pow2(a + 1), a + 1), |t.popped|, q');
    }
  }

  /** A push lands in a slot that holds no unread word. */
  lemma PushSlotIsFree(a: nat, q: nat, p: nat, k: nat)
    requires a >= 2 && q <= k < p < q + Pow2(a)
    ensures k % Pow2(a) != p % Pow2(a + 1) % Pow2(a)
  {
    SlotOfPointer(p, Pow2(a));
    if k % Pow2(a) == p % Pow2(a) {
      ModEqualClose(p, k, Pow2(a));
    }
  }

  /** No edge changes the memory slot of a word that was pushed and not yet popped. */
  lemma NoOverwrite<T>(a: nat, t: Trace<T>, v: Views, e: Edge<T>)
    requires Inv(a, t, v)
    ensures forall k :: |t.popped| <= k < |t.pushed| ==>
              Next(a, t.f, e).mem[k % Pow2(a)] == t.f.mem[k % Pow2(a)]
  {
    forall k | |t.popped| <= k < |t.pushed|
      ensures Next(a, t.f, e).mem[k % Pow2(a)] == t.f.mem[k % Pow2(a)]
    {
      if HasS(e) && Pushes(t.f.s, e.w) {
        PushSlotIsFree(a, |t.popped|, |t.pushed|, k);
      }
    }
  }

  lemma PopsFront<T>(a: nat, t: Trace<T>, v: Views, r: ReadIn)
    requires Inv(a, t, v) && Pops(t.f.m, r)
    ensures |t.popped| < |t.pushed| && Front(a, t.f) == t.pushed[|t.popped|]
  {
    SlotOfPointer(|t.popped|, Pow2(a));
  }

  lemma PushLands<T>(a: nat, t: Trace<T>, v: Views, e: Edge<T>)
    requires Inv(a, t, v) && HasS(e) && Pushes(t.f.s, e.w)
    ensures |t.pushed| < |t.popped| + Pow2(a)
    ensures Next(a, t.f, e).mem[|t.pushed| % Pow2(a)] == e.w.data
  {
    SlotOfPointer(|t.pushed|, Pow2(a));
  }

  /** At most one push `x` and one pop `y` keep the queue, if no unread word is overwritten. */
  lemma QueuedStep<T>(mem: seq<T>, mem': seq<T>, pushed: seq<T>, popped: seq<T>, x: seq<T>, y: seq<T>)
    requires |mem'| == |mem| > 0 && Queued(mem, pushed, popped) && |x| <= 1 && |y| <= 1
    requires forall k :: |popped| <= k < |pushed| ==> mem'[k % |mem|] == mem[k % |mem|]
    requires x != [] ==> |pushed| < |popped| + |mem| && mem'[|pushed| % |mem|] == x[0]
    requires y != [] ==> |popped| < |pushed| && y[0] == pushed[|popped|]
    ensures Queued(mem', pushed + x, popped + y)
  {
    forall k | |popped + y| <= k < |pushed + x|
      ensures mem'[k % |mem|] == (pushed + x)[k]
    {
      assert k < |pushed| ==> (pushed + x)[k] == pushed[k];
    }
  }

  lemma DataStep<T>(a: nat, t: Trace<T>, v: Views, e: Edge<T>)
    requires Inv(a, t, v)
    ensures DataInv(a, Advance(a, t, e))
  {
    NoOverwrite(a, t, v, e);
    if HasS(e) && Pushes(t.f.s, e.w) {
      PushLands(a, t, v, e);
    }
    if HasM(e) && Pops(t.f.m, e.r) {
      PopsFront(a, t, v, e.r);
    }
    QueuedStep(t.f.mem, Next(a, t.f, e).mem, t.pushed, t.popped,
               if HasS(e) && Pushes(t.f.s, e.w) then [e.w.data] else [],
               if HasM(e) && Pops(t.f.m, e.r) then [Front(a, t.f)] else []);
  }

  lemma WriteInvAfter<T>(a: nat, t: Trace<T>, v: Views, e: Edge<T>, seen: nat, v': Views)
    requires Inv(a, t, v) && HasS(e) && (e.w.rst ==> !t.sLive)
    requires v.r1 <= seen <= |Advance(a, t, e).popped|
    requires Next(a, t.f, e).s == WriteNext(a, t.f.s, e.w, Gray(seen % Pow2(a + 1), a + 1))
    requires if e.w.rst then v'.r1 == v.r1 && v'.r2 == v.r2 else v'.r1 == seen && v'.r2 == v.r1
    ensures WriteInv(a, Advance(a, t, e), v')
    ensures !e.w.rst ==> (Advance(a, t, e).f.s.full <==> |Advance(a, t, e).pushed| == v.r2 + Pow2(a))
  {
    WriteSideStep(a, t, v, e.w, seen, |Advance(a, t, e).pushed|);
  }

  lemma ReadInvAfter<T>(a: nat, t: Trace<T>, v: Views, e: Edge<T>, seen: nat, v': Views)
    requires Inv(a, t, v) && HasM(e) && (e.r.rst ==> !t.mLive)
    requires v.w1 <= seen <= |Advance(a, t, e).pushed|
    requires Next(a, t.f, e).m == ReadNext(a, t.f.m, e.r, Gray(seen % Pow2(a + 1), a + 1))
    requires if e.r.rst then v'.w1 == v.w1 && v'.w2 == v.w2 else v'.w1 == seen && v'.w2 == v.w1
    ensures ReadInv(a, Advance(a, t, e), v')
    ensures !e.r.rst ==> (Advance(a, t, e).f.m.empty <==> |Advance(a, t, e).popped| == v.w2)
  {
    ReadSideStep(a, t, v, e.r, seen, |Advance(a, t, e).popped|);
  }

  /** The write clock alone: the synchroniser catches up by one stage. */
  lemma SClkKeepsInv<T>(a: nat, t: Trace<T>, v: Views, w: WriteIn<T>) returns (v': Views)
    requires Inv(a, t, v) && (w.rst ==> !t.sLive)
    ensures Inv(a, Advance(a, t, SClk(w)), v')
    ensures !w.rst ==> v' == v.(r1 := |t.popped|, r2 := v.r1)
    ensures !w.rst ==> var t' := Advance(a, t, SClk(w)); t'.f.s.full <==> |t'.pushed| == v.r2 + Pow2(a)
  {
    v' := if w.rst then v else v.(r1 := |t.popped|, r2 := v.r1);
    DataStep(a, t, v, SClk(w));
    WriteInvAfter(a, t, v, SClk(w), |t.popped|, v');
    assert ReadInv(a, Advance(a, t, SClk(w)), v');
  }

  /** The read clock alone. */
  lemma MClkKeepsInv<T>(a: nat, t: Trace<T>, v: Views, r: ReadIn) returns (v': Views)
    requires Inv(a, t, v) && (r.rst ==> !t.mLive)
    ensures Inv(a, Advance(a, t, MClk(r)), v')
    ensures !r.rst ==> v' == v.(w1 := |t.pushed|, w2 := v.w1)
    ensures !r.rst ==> var t' := Advance(a, t, MClk(r)); t'.f.m.empty <==> |t'.popped| == v.w2
  {
    v' := if r.rst then v else v.(w1 := |t.pushed|, w2 := v.w1);
    DataStep(a, t, v, MClk(r));
    ReadInvAfter(a, t, v, MClk(r), |t.pushed|, v');
    assert WriteInv(a, Advance(a, t, MClk(r)), v');
  }

  /** What each synchroniser captures when both pointers may be changing. */
  lemma CapturesOnBoth<T>(a: nat, t: Trace<T>, v: Views, e: Edge<T>) returns (sSeen: nat, mSeen: nat)
    requires Inv(a, t, v) && e.Both? && (e.w.rst ==> !t.sLive) && (e.r.rst ==> !t.mLive)
    ensures |t.popped| <= sSeen <= |Advance(a, t, e).popped|
    ensures |t.pushed| <= mSeen <= |Advance(a, t, e).pushed|
    ensures Next(a, t.f, e).s == WriteNext(a, t.f.s, e.w, Gray(sSeen % Pow2(a + 1), a + 1))
    ensures Next(a, t.f, e).m == ReadNext(a, t.f.m, e.r, Gray(mSeen % Pow2(a + 1), a + 1))
  {
    var t' := Advance(a, t, e);
    WriteSideStep(a, t, v, e.w, |t.popped|, |t'.pushed|);
    ReadSideStep(a, t, v, e.r, |t.pushed|, |t'.popped|);
    sSeen := CapturedCount(a, |t.popped|, |t'.popped|, e.sNew);
    mSeen := CapturedCount(a, |t.pushed|, |t'.pushed|, e.mNew);
  }

  /** Both clocks at once, with any bitwise mix captured by the synchronisers. */
  lemma BothKeepsInv<T>(a: nat, t: Trace<T>, v: Views, e: Edge<T>) returns (v': Views)
    requires Inv(a, t, v) && e.Both? && (e.w.rst ==> !t.sLive) && (e.r.rst ==> !t.mLive)
    ensures Inv(a, Advance(a, t, e), v')
  {
    var sSeen, mSeen := CapturesOnBoth(a, t, v, e);
    v' := Views(
      if e.w.rst then v.r1 else sSeen, if e.w.rst then v.r2 else v.r1,
      if e.r.rst then v.w1 else mSeen, if e.r.rst then v.w2 else v.w1);
    DataStep(a, t, v, e);
    WriteInvAfter(a, t, v, e, sSeen, v');
    ReadInvAfter(a, t, v, e, mSeen, v');
  }

  /** Every edge, with any metastable capture, keeps the invariant. */
  lemma StepKeepsInv<T>(a: nat, t: Trace<T>, v: Views, e: Edge<T>) returns (v': Views)
    requires Inv(a, t, v)
    requires HasS(e) && e.w.rst ==> !t.sLive
    requires HasM(e) && e.r.rst ==> !t.mLive
    ensures Inv(a, Advance(a, t, e), v')
  {
    match e
    case SClk(w) => v' := SClkKeepsInv(a, t, v, w);
    case MClk(r) => v' := MClkKeepsInv(a, t, v, r);
    case Both(_, _, _, _) => v' := BothKeepsInv(a, t, v, e);
  }

  // ---- whole runs ---------------------------------------------------------------------------

  /** A side whose every edge so far was a reset edge has not left reset. */
  lemma {:induction false} NotLiveWhileReset<T>(a: nat, mem: seq<T>, es: seq<Edge<T>>)
    requires a >= 2 && |mem| == Pow2(a)
    ensures (forall i :: 0 <= i < |es| && HasS(es[i]) ==> es[i].w.rst) ==> !Run(a, mem, es).sLive
    ensures (forall i :: 0 <= i < |es| && HasM(es[i]) ==> es[i].r.rst) ==> !Run(a, mem, es).mLive
  {
    if es != [] {
      NotLiveWhileReset(a, mem, es[..|es| - 1]);
    }
  }

  lemma {:induction false} RunInv<T>(a: nat, mem: seq<T>, es: seq<Edge<T>>) returns (v: Views)
    requires a >= 2 && |mem| == Pow2(a) && ResetsFirst(es)
    ensures Inv(a, Run(a, mem, es), v)
  {
    if es == [] {
      v := Views(0, 0, 0, 0);
      ModSmall(0, Pow2(a + 1));
    } else {
      var init, e := es[..|es| - 1], es[|es| - 1];
      var v0 := RunInv(a, mem, init);
      NotLiveWhileReset(a, mem, init);
      v := StepKeepsInv(a, Run(a, mem, init), v0, e);
    }
  }

  /** The words on `s_tdata` at the write edges out of reset with `s_tvalid` high and `s_full` low. */
  function Given<T>(a: nat, mem: seq<T>, es: seq<Edge<T>>): seq<T>
    requires a >= 2 && |mem| == Pow2(a)
  {
    if es == [] then []
    else
      var init, e := es[..|es| - 1], es[|es| - 1];
      Given(a, mem, init) +
      if !e.MClk? && !e.w.rst && e.w.valid && !Run(a, mem, init).f.s.full then [e.w.data] else []
  }

  /** The words on `m_tdata` at the read edges out of reset with `m_tready` high and `m_empty` low. */
  function Taken<T>(a: nat, mem: seq<T>, es: seq<Edge<T>>): seq<T>
    requires a >= 2 && |mem| == Pow2(a)
  {
    if es == [] then []
    else
      var init, e := es[..|es| - 1], es[|es| - 1];
      var f := Run(a, mem, init).f;
      Taken(a, mem, init) +
      if !e.SClk? && !e.r.rst && e.r.ready && !f.m.empty then [f.mem[f.m.bin % Pow2(a)]] else []
  }

  /** What the pointers count is what the two handshakes transfer. */
  lemma {:induction false} RunTransfers<T>(a: nat, mem: seq<T>, es: seq<Edge<T>>)
    requires a >= 2 && |mem| == Pow2(a)
    ensures Run(a, mem, es).pushed == Given(a, mem, es) && Run(a, mem, es).popped == Taken(a, mem, es)
  {
    if es != [] {
      RunTransfers(a, mem, es[..|es| - 1]);
    }
  }

  /**
   The FIFO is a bounded queue in every interleaving of the two clocks: what the consumer took is a prefix of
   what the producer gave, the occupancy stays within the depth, the word on offer is the oldest unread one, and
   the flags err only on the safe side.
   */
  lemma RunIsBoundedQueue<T>(a: nat, mem: seq<T>, es: seq<Edge<T>>)
    requires a >= 2 && |mem| == Pow2(a) && ResetsFirst(es)
    ensures var f, given, taken := Run(a, mem, es).f, Given(a, mem, es), Taken(a, mem, es);
            && taken <= given
            && |given| - |taken| <= Pow2(a)
            && (!f.s.full ==> |given| - |taken| < Pow2(a))
            && (!f.m.empty ==> |taken| < |given| && f.mem[f.m.bin % Pow2(a)] == given[|taken|])
  {
    var v := RunInv(a, mem, es);
    RunTransfers(a, mem, es);
    SlotOfPointer(|Run(a, mem, es).popped|, Pow2(a));
  }

  /** In every run, no edge touches the slot of an unread word, so a push never overwrites one. */
  lemma RunNeverOverwrites<T>(a: nat, mem: seq<T>, es: seq<Edge<T>>, e: Edge<T>)
    requires a >= 2 && |mem| == Pow2(a) && ResetsFirst(es)
    ensures var t := Run(a, mem, es);
            forall k :: |t.popped| <= k < |t.pushed| ==>
              Next(a, t.f, e).mem[k % Pow2(a)] == t.pushed[k]
  {
    var v := RunInv(a, mem, es);
    NoOverwrite(a, Run(a, mem, es), v, e);
  }

  lemma RunExtend<T>(a: nat, mem: seq<T>, es: seq<Edge<T>>, e: Edge<T>)
    requires a >= 2 && |mem| == Pow2(a)
    ensures Run(a, mem, es + [e]) == Advance(a, Run(a, mem, es), e)
  {
    assert (es + [e])[..|es|] == es;
  }

  lemma OneWriteEdge<T>(a: nat, t: Trace<T>, v: Views, x: WriteIn<T>, t': Trace<T>) returns (v': Views)
    requires a >= 2 && Inv(a, t, v) && !x.rst && t' == Advance(a, t, SClk(x))
    ensures Inv(a, t', v') && v' == v.(r1 := |t.popped|, r2 := v.r1) && t'.popped == t.popped
    ensures t'.f.s.full <==> |t'.pushed| == v.r2 + Pow2(a)
  {
    v' := SClkKeepsInv(a, t, v, x);
  }

  lemma ThreeWriteEdges<T>(a: nat, t: Trace<T>, v: Views, x: WriteIn<T>, y: WriteIn<T>, z: WriteIn<T>)
    requires a >= 2 && Inv(a, t, v) && !x.rst && !y.rst && !z.rst
    ensures var t3 := Advance(a, Advance(a, Advance(a, t, SClk(x)), SClk(y)), SClk(z));
            t3.f.s.full <==> |t3.pushed| - |t3.popped| == Pow2(a)
  {
    var t1 := Advance(a, t, SClk(x));
    var t2 := Advance(a, t1, SClk(y));
    var v1 := OneWriteEdge(a, t, v, x, t1);
    var v2 := OneWriteEdge(a, t1, v1, y, t2);
    var v3 := OneWriteEdge(a, t2, v2, z, Advance(a, t2, SClk(z)));
  }

  lemma OneReadEdge<T>(a: nat, t: Trace<T>, v: Views, x: ReadIn, t': Trace<T>) returns (v': Views)
    requires a >= 2 && Inv(a, t, v) && !x.rst && t' == Advance(a, t, MClk(x))
    ensures Inv(a, t', v') && v' == v.(w1 := |t.pushed|, w2 := v.w1) && t'.pushed == t.pushed
    ensures t'.f.m.empty <==> |t'.popped| == v.w2
  {
    v' := MClkKeepsInv(a, t, v, x);
  }

  lemma ThreeReadEdges<T>(a: nat, t: Trace<T>, v: Views, x: ReadIn, y: ReadIn, z: ReadIn)
    requires a >= 2 && Inv(a, t, v) && !x.rst && !y.rst && !z.rst
    ensures var t3 := Advance(a, Advance(a, Advance(a, t, MClk(x)), MClk(y)), MClk(z));
            t3.f.m.empty <==> |t3.pushed| == |t3.popped|
  {
    var t1 := Advance(a, t, MClk(x));
    var t2 := Advance(a, t1, MClk(y));
    var v1 := OneReadEdge(a, t, v, x, t1);
    var v2 := OneReadEdge(a, t1, v1, y, t2);
    var v3 := OneReadEdge(a, t2, v2, z, Advance(a, t2, MClk(z)));
  }

  /** After three write edges with the read clock silent, `s_full` is exact. */
  lemma FullExactAfterThree<T>(a: nat, mem: seq<T>, es: seq<Edge<T>>, x: WriteIn<T>, y: WriteIn<T>, z: WriteIn<T>)
    requires a >= 2 && |mem| == Pow2(a) && ResetsFirst(es)
    requires !x.rst && !y.rst && !z.rst
    ensures var t := Run(a, mem, es + [SClk(x)] + [SClk(y)] + [SClk(z)]);
            t.f.s.full <==> |t.pushed| - |t.popped| == Pow2(a)
  {
    var e1, e2 := es + [SClk(x)], es + [SClk(x)] + [SClk(y)];
    RunExtend(a, mem, es, SClk(x));
    RunExtend(a, mem, e1, SClk(y));
    RunExtend(a, mem, e2, SClk(z));
    var v := RunInv(a, mem, es);
    ThreeWriteEdges(a, Run(a, mem, es), v, x, y, z);
  }

  /** After three read edges with the write clock silent, `m_empty` is exact. */
  lemma EmptyExactAfterThree<T>(a: nat, mem: seq<T>, es: seq<Edge<T>>, x: ReadIn, y: ReadIn, z: ReadIn)
    requires a >= 2 && |mem| == Pow2(a) && ResetsFirst(es)
    requires !x.rst && !y.rst && !z.rst
    ensures var t := Run(a, mem, es + [MClk(x)] + [MClk(y)] + [MClk(z)]);
            t.f.m.empty <==> |t.pushed| == |t.popped|
  {
    var e1, e2 := es + [MClk(x)], es + [MClk(x)] + [MClk(y)];
    RunExtend(a, mem, es, MClk(x));
    RunExtend(a, mem, e1, MClk(y));
    RunExtend(a, mem, e2, MClk(z));
    var v := RunInv(a, mem, es);
    ThreeReadEdges(a, Run(a, mem, es), v, x, y, z);
  }

  // ---- the offer and the drain ---------------------------------------------------------------

  /** At a read edge out of reset the flag compares the new count with what the second stage knew. */
  lemma EmptyAfter<T>(a: nat, t: Trace<T>, v: Views, e: Edge<T>)
    requires Inv(a, t, v) && HasM(e) && !e.r.rst
    ensures Next(a, t.f, e).m.empty <==> |Advance(a, t, e).popped| == v.w2
  {
    PointerStep(|t.popped|, Pow2(a + 1));
    EmptyMeansEmpty(a, |Advance(a, t, e).popped|, v.w2);
  }

  /** A word is on offer, and no read edge takes it or is a reset. */
  predicate Waits<T>(f: Fifo<T>, e: Edge<T>) {
    !f.m.empty && (!e.SClk? ==> !e.r.ready && !e.r.rst)
  }

  lemma OfferStep<T>(a: nat, t: Trace<T>, v: Views, e: Edge<T>)
    requires Inv(a, t, v) && Waits(t.f, e)
    ensures !Next(a, t.f, e).m.empty && Front(a, Next(a, t.f, e)) == Front(a, t.f)
  {
    if HasM(e) {
      EmptyAfter(a, t, v, e);
    }
    NoOverwrite(a, t, v, e);
    SlotOfPointer(|t.popped|, Pow2(a));
  }

  lemma ResetsFirstPrefix<T>(es: seq<Edge<T>>, e: Edge<T>)
    requires ResetsFirst(es + [e])
    ensures ResetsFirst(es)
  {
    assert forall i :: 0 <= i < |es| ==> (es + [e])[i] == es[i];
  }

  /** `m_tdata`. */
  function Offered<T>(a: nat, mem: seq<T>, es: seq<Edge<T>>): T
    requires a >= 2 && |mem| == Pow2(a)
  {
    var f := Run(a, mem, es).f;
    f.mem[f.m.bin % Pow2(a)]
  }

  /** A word on offer stays, and stays the same, over any edges of either clock at which `m_tready` is low. */
  lemma {:induction false} OfferHeld<T>(a: nat, mem: seq<T>, es: seq<Edge<T>>, more: seq<Edge<T>>)
    requires a >= 2 && |mem| == Pow2(a) && ResetsFirst(es + more) && !Run(a, mem, es).f.m.empty
    requires forall i :: 0 <= i < |more| && !more[i].SClk? ==> !more[i].r.ready && !more[i].r.rst
    ensures !Run(a, mem, es + more).f.m.empty && Offered(a, mem, es + more) == Offered(a, mem, es)
  {
    if more == [] {
      assert es + more == es;
    } else {
      var init, e := more[..|more| - 1], more[|more| - 1];
      assert es + more == es + init + [e];
      ResetsFirstPrefix(es + init, e);
      OfferHeld(a, mem, es, init);
      var v := RunInv(a, mem, es + init);
      RunExtend(a, mem, es + init, e);
      OfferStep(a, Run(a, mem, es + init), v, e);
    }
  }

  function ReadEdges<T>(n: nat): (es: seq<Edge<T>>)
    ensures |es| == n
  {
    if n == 0 then [] else ReadEdges(n - 1) + [MClk(ReadIn(false, true))]
  }

  /** After `n` such edges: the stages know all that was given, and one word a cycle has been taken since. */
  ghost predicate Draining<T>(a: nat, t0: Trace<T>, t: Trace<T>, v: Views, n: nat) {
    && Inv(a, t, v) && t.pushed == t0.pushed && |t0.popped| <= |t.popped|
    && (n >= 1 ==> v.w1 == |t.pushed|)
    && (n >= 2 ==> v.w2 == |t.pushed|)
    && (n >= 3 ==> (t.f.m.empty <==> |t.popped| == |t.pushed|))
    && (n >= 3 ==> |t.popped| == |t.pushed| || |t.popped| >= |t0.popped| + n - 3)
  }

  lemma DrainStep<T>(a: nat, t0: Trace<T>, t: Trace<T>, v: Views, n: nat) returns (v': Views)
    requires a >= 2 && Draining(a, t0, t, v, n)
    ensures Draining(a, t0, Advance(a, t, MClk(ReadIn(false, true))), v', n + 1)
  {
    var x := ReadIn(false, true);
    v' := OneReadEdge(a, t, v, x, Advance(a, t, MClk(x)));
  }

  lemma DrainEdge<T>(a: nat, mem: seq<T>, es: seq<Edge<T>>, t0: Trace<T>, v: Views, n: nat) returns (v': Views)
    requires a >= 2 && |mem| == Pow2(a) && Draining(a, t0, Run(a, mem, es), v, n)
    ensures Draining(a, t0, Run(a, mem, es + [MClk(ReadIn(false, true))]), v', n + 1)
  {
    RunExtend(a, mem, es, MClk(ReadIn(false, true)));
    v' := DrainStep(a, t0, Run(a, mem, es), v, n);
  }

  lemma ReadEdgesMore<T>(es: seq<Edge<T>>, n: nat)
    requires n > 0
    ensures es + ReadEdges<T>(n) == es + ReadEdges<T>(n - 1) + [MClk(ReadIn(false, true))]
  {
  }

  lemma {:induction false} DrainRun<T>(a: nat, mem: seq<T>, es: seq<Edge<T>>, t0: Trace<T>, n: nat) returns (v: Views)
    requires a >= 2 && |mem| == Pow2(a) && ResetsFirst(es) && t0 == Run(a, mem, es)
    ensures Draining(a, t0, Run(a, mem, es + ReadEdges(n)), v, n)
  {
    if n == 0 {
      assert es + ReadEdges(n) == es;
      v := RunInv(a, mem, es);
    } else {
      var v0 := DrainRun(a, mem, es, t0, n - 1);
      ReadEdgesMore(es, n);
      v := DrainEdge(a, mem, es + ReadEdges(n - 1), t0, v0, n - 1);
    }
  }

  /** Nothing is stuck: a ready consumer takes every stored word within their number and three more of its edges. */
  lemma ReaderDrains<T>(a: nat, mem: seq<T>, es: seq<Edge<T>>, n: nat)
    requires a >= 2 && |mem| == Pow2(a) && ResetsFirst(es)
    requires n >= |Given(a, mem, es)| - |Taken(a, mem, es)| + 3
    ensures Taken(a, mem, es + ReadEdges(n)) == Given(a, mem, es)
  {
    RunTransfers(a, mem, es);
    RunTransfers(a, mem, es + ReadEdges(n));
    var v := DrainRun(a, mem, es, Run(a, mem, es), n);
  }

  /** The hardware: its registers, updated in place at each clock edge. */
  class AxisAsyncFifo<T(0)> {
    const addrWidth: nat
    const mem: array<T>
    var sBin: nat
    var sGray: seq<bool>
    var sGrayM1: seq<bool>
    var sGrayM2: seq<bool>
    var sFull: bool
    var mBin: nat
    var mGray: seq<bool>
    var mGrayS1: seq<bool>
    var mGrayS2: seq<bool>
    var mEmpty: bool

    ghost function Regs(): Fifo<T>
      reads this, mem
    {
      Fifo(mem[..], WriteRegs(sBin, sGray, sGrayM1, sGrayM2, sFull), ReadRegs(mBin, mGray, mGrayS1, mGrayS2, mEmpty))
    }

    ghost predicate Valid()
      reads this, mem
    {
      Sized(addrWidth, Regs())
    }

    constructor (a: nat)
      requires a >= 2
      ensures Valid() && addrWidth == a && fresh(mem)
      ensures Regs() == Start(a, mem[..]).f
    {
      addrWidth := a;
      mem := new T[Pow2(a)];
      sBin, mBin := 0, 0;
      sGray, sGrayM1, sGrayM2, sFull := Gray(0, a + 1), Gray(0, a + 1), Gray(0, a + 1), false;
      mGray, mGrayS1, mGrayS2, mEmpty := Gray(0, a + 1), Gray(0, a + 1), Gray(0, a + 1), true;
    }

    /** The block clocked by `s_clk`; `seen` is what its synchroniser samples of the read pointer. */
    method WriteEdge(w: WriteIn<T>, seen: seq<bool>)
      requires Valid() && |seen| == addrWidth + 1
      modifies this`sBin, this`sGray, this`sGrayM1, this`sGrayM2, this`sFull, mem
      ensures Valid()
      ensures Regs() == Fifo(MemNext(addrWidth, old(Regs()), w), WriteNext(addrWidth, old(Regs().s), w, seen),
              old(Regs().m))
    {
      if w.rst {
        sBin, sFull := 0, false;
        sGray := Gray(0, addrWidth + 1);
        sGrayM1, sGrayM2 := sGray, sGray;
      } else {
        var push := w.valid && !sFull;
        var binNext := if push then Succ(sBin, Pow2(addrWidth + 1)) else sBin;
        var grayNext := Gray(binNext, addrWidth + 1);
        var fullNext := grayNext == FlipTopTwo(sGrayM2);
        sGrayM2 := sGrayM1;
        sGrayM1 := seen;
        if push {
          mem[sBin % Pow2(addrWidth)] := w.data;
        }
        sBin, sGray, sFull := binNext, grayNext, fullNext;
      }
    }

    /** The block clocked by `m_clk`. */
    method ReadEdge(r: ReadIn, seen: seq<bool>)
      requires Valid() && |seen| == addrWidth + 1
      modifies this`mBin, this`mGray, this`mGrayS1, this`mGrayS2, this`mEmpty
      ensures Valid()
      ensures Regs() == old(Regs()).(m := ReadNext(addrWidth, old(Regs().m), r, seen))
    {
      if r.rst {
        mBin, mEmpty := 0, true;
        mGray := Gray(0, addrWidth + 1);
        mGrayS1, mGrayS2 := mGray, mGray;
      } else {
        var pop := r.ready && !mEmpty;
        var binNext := if pop then Succ(mBin, Pow2(addrWidth + 1)) else mBin;
        var grayNext := Gray(binNext, addrWidth + 1);
        mEmpty := grayNext == mGrayS2;
        mGrayS2 := mGrayS1;
        mGrayS1 := seen;
        mBin, mGray := binNext, grayNext;
      }
    }

    /** One instant: either clock, or both with the synchronisers sampling changing pointers. */
    method Tick(e: Edge<T>)
      requires Valid()
      modifies this, mem
      ensures Valid()
      ensures Regs() == Next(addrWidth, old(Regs()), e)
    {
      match e
      case SClk(w) => WriteEdge(w, mGray);
      case MClk(r) => ReadEdge(r, sGray);
      case Both(w, r, sNew, mNew) =>
        var s0, m0 := sGray, mGray;
        var s1 := if w.rst then Gray(0, addrWidth + 1)
                  else Gray(if w.valid && !sFull then Succ(sBin, Pow2(addrWidth + 1)) else sBin, addrWidth + 1);
        var m1 := if r.rst then Gray(0, addrWidth + 1)
                  else Gray(if r.ready && !mEmpty then Succ(mBin, Pow2(addrWidth + 1)) else mBin, addrWidth + 1);
        WriteEdge(w, Capture(m0, m1, sNew));
        ReadEdge(r, Capture(s0, s1, mNew));
    }
  }
}
