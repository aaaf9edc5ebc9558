/**
 The AXI4-Lite channels and the register file behind them.
 */
module AxiLite {
  import opened Modular

  datatype Strobe = Strobe(b0: bool, b1: bool, b2: bool, b3: bool)

  /** One register write: a 12-bit address, data, and byte enables. */
  datatype Write = Write(addr: nat, data: nat, strb: Strobe)

  datatype WData = WData(data: nat, strb: Strobe)

  /** Hold registers of the write channels, the response flag, and the register file with its one-cycle pulses. */
  datatype Slave = Slave(awHold: bool, wHold: bool, awAddr: nat, wData: WData, bValid: bool,
                         regs: map<nat, nat>, configChanged: bool, softReset: bool, clearCounts: bool)

  /** The bus signals driven by the master during one cycle. */
  datatype In = In(awValid: bool, awAddr: nat, wValid: bool, w: WData, bReady: bool)

  const CONTROL := 0x008
  const CLEAR_COUNTS := 0x020

  /** Addresses whose write marks the stream configuration as changed. */
  const CONFIG_REGS: set<nat> := {0x008, 0x100, 0x104, 0x108, 0x10c, 0x118, 0x11c, 0x120, 0x124, 0x128}

  const RESET_REGS: map<nat, nat> := map[
    0x008 := 0, 0x100 := 0, 0x104 := 0, 0x108 := 1000, 0x10c := 30, 0x118 := 0, 0x11c := 0,
    0x120 := 250000, 0x124 := 12000, 0x128 := 0]

  function Reset(): Slave {
    Slave(false, false, 0, WData(0, Strobe(false, false, false, false)), false, RESET_REGS, false, false, false)
  }

  predicate AwReady(s: Slave) { !s.awHold && !s.bValid }
  predicate WReady(s: Slave) { !s.wHold && !s.bValid }

  /** `wr_fire`: address and data are both held and no response is waiting. */
  predicate Fires(s: Slave) { s.awHold && s.wHold && !s.bValid }

  function Lane(was: nat, data: nat, lane: nat, take: bool): nat
    requires lane > 0
  {
    (if take then data else was) / lane % 256 * lane
  }

  /** The old register with the enabled bytes replaced. */
  function Merge(was: nat, data: nat, s: Strobe): nat {
    Lane(was, data, 1, s.b0) + Lane(was, data, 0x100, s.b1) + Lane(was, data, 0x1_0000, s.b2) + Lane(was, data,
        0x100_0000, s.b3)
  }

  function Apply(regs: map<nat, nat>, w: Write): map<nat, nat> {
    if w.addr in CONFIG_REGS && w.addr in regs then regs[w.addr := Merge(regs[w.addr], w.data, w.strb)] else regs
  }

  function HeldWrite(s: Slave): Write {
    Write(s.awAddr, s.wData.data, s.wData.strb)
  }

  function Step(s: Slave, i: In): Slave {
    var takesAw := AwReady(s) && i.awValid;
    var takesW := WReady(s) && i.wValid;
    Slave(
      if Fires(s) then false else s.awHold || takesAw,
      if Fires(s) then false else s.wHold || takesW,
      if takesAw then i.awAddr % 0x1000 else s.awAddr,
      if takesW then i.w else s.wData,
      if Fires(s) then true else s.bValid && !i.bReady,
      if Fires(s) then Apply(s.regs, HeldWrite(s)) else s.regs,
      Fires(s) && s.awAddr in CONFIG_REGS,
      Fires(s) && s.awAddr == CONTROL && s.wData.data / 2 % 2 == 1,
      Fires(s) && s.awAddr == CLEAR_COUNTS && s.wData.data % 2 == 1)
  }

  /** A run: what each channel accepted, the register writes made, and the responses taken. */
  datatype Trace = Trace(s: Slave, aws: seq<nat>, ws: seq<WData>, writes: seq<Write>, taken: nat)

  function Advance(t: Trace, i: In): Trace {
    Trace(
      Step(t.s, i),
      t.aws + (if AwReady(t.s) && i.awValid then [i.awAddr % 0x1000] else []),
      t.ws + (if WReady(t.s) && i.wValid then [i.w] else []),
      t.writes + (if Fires(t.s) then [HeldWrite(t.s)] else []),
      t.taken + if t.s.bValid && i.bReady then 1 else 0)
  }

  function Run(ins: seq<In>): Trace {
    if ins == [] then Trace(Reset(), [], [], [], 0) else Advance(Run(ins[..|ins| - 1]), ins[|ins| - 1])
  }

  function Count(b: bool): nat { if b then 1 else 0 }

  function ApplyAll(regs: map<nat, nat>, ws: seq<Write>): map<nat, nat> {
    if ws == [] then regs else Apply(ApplyAll(regs, ws[..|ws| - 1]), ws[|ws| - 1])
  }

  ghost predicate Paired(t: Trace) {
    && |t.aws| == |t.writes| + Count(t.s.awHold)
    && |t.ws| == |t.writes| + Count(t.s.wHold)
    && (t.s.awHold ==> t.aws[|t.aws| - 1] == t.s.awAddr)
    && (t.s.wHold ==> t.ws[|t.ws| - 1] == t.s.wData)
    && (forall n :: 0 <= n < |t.writes| ==> t.writes[n] == Write(t.aws[n], t.ws[n].data, t.ws[n].strb))
    && |t.writes| == t.taken + Count(t.s.bValid)
    && t.s.regs == ApplyAll(RESET_REGS, t.writes)
    && (t.s.bValid ==> !t.s.awHold && !t.s.wHold)
  }

  lemma StepPaired(t: Trace, i: In)
    requires Paired(t)
    ensures Paired(Advance(t, i))
  {
    var t' := Advance(t, i);
    if Fires(t.s) {
      assert t'.writes[..|t'.writes| - 1] == t.writes;
    } else {
      assert t'.writes == t.writes;
    }
    forall n | 0 <= n < |t'.writes|
      ensures t'.writes[n] == Write(t'.aws[n], t'.ws[n].data, t'.ws[n].strb)
    {
      if n == |t.writes| {
        assert t.aws[|t.aws| - 1] == t.s.awAddr && t.ws[|t.ws| - 1] == t.s.wData;
      }
    }
  }

  /**
   In every run of the bus: write n combines the n-th accepted address with the n-th accepted data,
   at most one address and one datum wait for their partner, every write is answered once, and the
   register file is exactly the writes applied in order.
   */
  lemma {:induction false} WritesPair(ins: seq<In>)
    ensures Paired(Run(ins))
  {
    if ins != [] {
      WritesPair(ins[..|ins| - 1]);
      StepPaired(Run(ins[..|ins| - 1]), ins[|ins| - 1]);
    }
  }

  /** A response, once raised, stays until it is taken, and meanwhile nothing is accepted or written. */
  lemma {:induction false} ResponseHeld(s: Slave, ins: seq<In>) returns (s': Slave)
    requires s.bValid && !s.awHold && !s.wHold && forall n :: 0 <= n < |ins| ==> !ins[n].bReady
    ensures s' == RunFrom(s, ins)
    ensures s'.bValid && s'.regs == s.regs && !s'.awHold && !s'.wHold
  {
    if ins == [] {
      s' := s;
    } else {
      var m := ResponseHeld(s, ins[..|ins| - 1]);
      s' := Step(m, ins[|ins| - 1]);
    }
  }

  function RunFrom(s: Slave, ins: seq<In>): Slave {
    if ins == [] then s else Step(RunFrom(s, ins[..|ins| - 1]), ins[|ins| - 1])
  }

  // ---- the read channel ----------------------------------------------------------------------------------------

  /** What the receiver reports. */
  datatype Status = Status(locked: bool, overrange: bool, peak: nat, rms: nat, overranges: nat, clips: nat,
                           timestamp: nat, debugFlags: nat, valids: nat, updates: nat, samples: nat, overflows: nat)

  /** Registers of the read channel. */
  datatype Reader = Reader(data: nat, valid: bool)

  datatype ReadIn = ReadIn(arValid: bool, arAddr: nat, rReady: bool, status: Status)

  const CORE_ID := 0x5344_5231
  const CORE_VERSION := 0x1_0000

  function StatusWord(control: nat, t: Status): nat {
    (if t.overrange then 4 else 0) + (if t.locked then 2 else 0) + control % 2
  }

  function ReadData(regs: map<nat, nat>, t: Status, addr: nat): nat {
    if addr in CONFIG_REGS then if addr in regs then regs[addr] else 0
    else
      match addr
      case 0x000 => CORE_ID
      case 0x004 => CORE_VERSION
      case 0x00c => StatusWord(if CONTROL in regs then regs[CONTROL] else 0, t)
      case 0x010 => t.peak
      case 0x014 => t.rms
      case 0x018 => t.overranges
      case 0x01c => t.clips
      case 0x024 => t.timestamp % WORD
      case 0x028 => t.timestamp / WORD
      case 0x02c => t.debugFlags
      case 0x030 => t.valids
      case 0x034 => t.updates
      case 0x110 => t.samples
      case 0x114 => t.overflows
      case _ => 0
  }

  predicate TakesRead(r: Reader, i: ReadIn) {
    !r.valid && i.arValid
  }

  function ReadStep(r: Reader, regs: map<nat, nat>, i: ReadIn): Reader {
    if TakesRead(r, i) then Reader(ReadData(regs, i.status, i.arAddr % 0x1000), true)
    else Reader(r.data, r.valid && !i.rReady)
  }

  /** What the master drives in one cycle, on the write channels and on the read channels. */
  datatype Cycle = Cycle(w: In, r: ReadIn)

  function WriteSide(cs: seq<Cycle>): (ins: seq<In>)
    ensures |ins| == |cs| && forall n :: 0 <= n < |cs| ==> ins[n] == cs[n].w
  {
    seq(|cs|, n requires 0 <= n < |cs| => cs[n].w)
  }

  /** The register file before cycle `n`. */
  function RegsAt(cs: seq<Cycle>, n: nat): map<nat, nat>
    requires n <= |cs|
  {
    Run(WriteSide(cs[..n])).s.regs
  }

  /** The cycles in which read addresses were accepted, and the data that the master has taken. */
  datatype Reads = Reads(r: Reader, accepted: seq<nat>, taken: seq<nat>)

  function ReadRun(cs: seq<Cycle>): Reads {
    if cs == [] then Reads(Reader(0, false), [], [])
    else
      var n, i := |cs| - 1, cs[|cs| - 1].r;
      var t := ReadRun(cs[..n]);
      Reads(
        ReadStep(t.r, RegsAt(cs, n), i),
        t.accepted + (if TakesRead(t.r, i) then [n] else []),
        t.taken + if t.r.valid && i.rReady then [t.r.data] else [])
  }

  /** The answer due to the read accepted in cycle `n`. */
  function Answer(cs: seq<Cycle>, n: nat): nat
    requires n < |cs|
  {
    ReadData(RegsAt(cs, n), cs[n].r.status, cs[n].r.arAddr % 0x1000)
  }

  function Waiting(r: Reader): seq<nat> {
    if r.valid then [r.data] else []
  }

  /** The data taken, and that on offer, answer the accepted reads one by one. */
  ghost predicate Answered(cs: seq<Cycle>, t: Reads) {
    && |t.taken + Waiting(t.r)| == |t.accepted|
    && (forall n :: 0 <= n < |t.accepted| ==> t.accepted[n] < |cs| && cs[t.accepted[n]].r.arValid)
    && (forall n :: 0 <= n < |t.accepted| ==> (t.taken + Waiting(t.r))[n] == Answer(cs, t.accepted[n]))
    && (forall m, n :: 0 <= m < n < |t.accepted| ==> t.accepted[m] < t.accepted[n])
  }

  lemma AnswerKept(init: seq<Cycle>, c: Cycle, n: nat)
    requires n < |init|
    ensures Answer(init + [c], n) == Answer(init, n)
  {
    assert (init + [c])[..n] == init[..n];
  }

  lemma AnsweredMore(init: seq<Cycle>, c: Cycle, t: Reads, t': Reads)
    requires Answered(init, t)
    requires t' == Reads(
                     ReadStep(t.r, RegsAt(init + [c], |init|), c.r),
                     t.accepted + (if TakesRead(t.r, c.r) then [|init|] else []),
                     t.taken + if t.r.valid && c.r.rReady then [t.r.data] else [])
    ensures Answered(init + [c], t')
  {
    var was, now := t.taken + Waiting(t.r), t'.taken + Waiting(t'.r);
    assert now == was + if TakesRead(t.r, c.r) then [Answer(init + [c], |init|)] else [];
    forall n | 0 <= n < |t.accepted|
      ensures now[n] == Answer(init + [c], t'.accepted[n])
    {
      AnswerKept(init, c, t.accepted[n]);
    }
  }

  /**
   In every run of the bus each accepted read is answered once and in order, with what its address held in the very
   cycle in which it was accepted; registers being the writes made before that cycle.
   */
  lemma {:induction false} ReadsAreAnswered(cs: seq<Cycle>)
    ensures Answered(cs, ReadRun(cs))
  {
    if cs != [] {
      var init, c := cs[..|cs| - 1], cs[|cs| - 1];
      assert cs == init + [c];
      ReadsAreAnswered(init);
      AnsweredMore(init, c, ReadRun(init), ReadRun(cs));
    }
  }

  const EVERY_BYTE := Strobe(true, true, true, true)

  lemma FourBytes(v: nat)
    requires v < WORD
    ensures v % 256 + v / 0x100 % 256 * 0x100 + v / 0x1_0000 % 256 * 0x1_0000 + v / 0x100_0000 % 256 * 0x100_0000 == v
  {
    var a, b, c := v / 0x100, v / 0x1_0000, v / 0x100_0000;
    assert v == 256 * a + v % 256;
    assert a / 256 == b && a == 256 * b + a % 256;
    assert b / 256 == c && b == 256 * c + b % 256;
    assert c < 256;
  }

  lemma {:induction false} RegsKept(ws: seq<Write>)
    ensures ApplyAll(RESET_REGS, ws).Keys == CONFIG_REGS
  {
    if ws != [] {
      RegsKept(ws[..|ws| - 1]);
    }
  }

  /** Write `n` is the last one to its address. */
  predicate LastTo(ws: seq<Write>, n: nat) {
    n < |ws| && forall m :: n < m < |ws| ==> ws[m].addr != ws[n].addr
  }

  lemma {:induction false} LastWriteStands(ws: seq<Write>, n: nat)
    requires LastTo(ws, n) && ws[n].addr in CONFIG_REGS && ws[n].strb == EVERY_BYTE && ws[n].data < WORD
    ensures var regs := ApplyAll(RESET_REGS, ws); ws[n].addr in regs && regs[ws[n].addr] == ws[n].data
  {
    var init := ws[..|ws| - 1];
    if n < |init| {
      LastWriteStands(init, n);
    } else {
      RegsKept(init);
      FourBytes(ws[n].data);
    }
  }

  /** Reading back: a read of a configuration register is answered with the last whole word written to it. */
  lemma ReadBack(cs: seq<Cycle>, at: nat, n: nat)
    requires at < |cs| && var ws := Run(WriteSide(cs[..at])).writes;
                          LastTo(ws, n) && ws[n].addr == cs[at].r.arAddr % 0x1000
    requires var w := Run(WriteSide(cs[..at])).writes[n]; w.addr in CONFIG_REGS && w.strb == EVERY_BYTE && w.data < WORD
    ensures Answer(cs, at) == Run(WriteSide(cs[..at])).writes[n].data
  {
    WritesPair(WriteSide(cs[..at]));
    LastWriteStands(Run(WriteSide(cs[..at])).writes, n);
  }

  /** The slave's registers, updated in place. */
  class AxiLiteSlave {
    var awHold: bool
    var wHold: bool
    var awAddr: nat
    var wData: WData
    var bValid: bool
    var regs: map<nat, nat>
    var configChanged: bool

    var softReset: bool
    var clearCounts: bool
    var rData: nat
    var rValid: bool

    ghost function Regs(): Slave
      reads this
    {
      Slave(awHold, wHold, awAddr, wData, bValid, regs, configChanged, softReset, clearCounts)
    }

    ghost function ReadRegs(): Reader
      reads this
    {
      Reader(rData, rValid)
    }

    constructor ()
      ensures Regs() == Reset() && ReadRegs() == Reader(0, false)
    {
      rData, rValid := 0, false;
      awHold, wHold, awAddr, wData, bValid := false, false, 0, WData(0, Strobe(false, false, false, false)), false;
      regs, configChanged, softReset, clearCounts := RESET_REGS, false, false, false;
    }

    /** The register file's block: one write, with byte enables, and the pulses it raises. */
    method RegisterWrite(w: Write)
      modifies this`regs, this`configChanged, this`softReset, this`clearCounts
      ensures regs == Apply(old(regs), w) && configChanged == (w.addr in CONFIG_REGS)
      ensures softReset == (w.addr == CONTROL && w.data / 2 % 2 == 1)
      ensures clearCounts == (w.addr == CLEAR_COUNTS && w.data % 2 == 1)
    {
      configChanged, softReset, clearCounts := false, false, false;
      if w.addr == CLEAR_COUNTS {
        clearCounts := w.data % 2 == 1;
      } else if w.addr in CONFIG_REGS {
        if w.addr in regs {
          regs := regs[w.addr := Merge(regs[w.addr], w.data, w.strb)];
        }
        softReset := w.addr == CONTROL && w.data / 2 % 2 == 1;
        configChanged := true;
      }
    }

    method ReadChannel(i: ReadIn)
      modifies this`rData, this`rValid
      ensures ReadRegs() == ReadStep(old(ReadRegs()), regs, i)
    {
      if !rValid && i.arValid {
        rData, rValid := ReadData(regs, i.status, i.arAddr % 0x1000), true;
      } else if rValid && i.rReady {
        rValid := false;
      }
    }

    method WriteChannels(i: In)
      modifies this
      ensures Regs() == Step(old(Regs()), i) && ReadRegs() == old(ReadRegs())
    {
      var awReady, wReady, fire := !awHold && !bValid, !wHold && !bValid, awHold && wHold && !bValid;
      var held := Write(awAddr, wData.data, wData.strb);
      if awReady && i.awValid {
        awHold, awAddr := true, i.awAddr % 0x1000;
      }
      if wReady && i.wValid {
        wHold, wData := true, i.w;
      }
      configChanged, softReset, clearCounts := false, false, false;
      if fire {
        awHold, wHold, bValid := false, false, true;
        RegisterWrite(held);
      } else if bValid && i.bReady {
        bValid := false;
      }
    }

    /** A read takes what the registers held before the edge. */
    method Clock(rst: bool, c: Cycle)
      modifies this
      ensures Regs() == if rst then Reset() else Step(old(Regs()), c.w)
      ensures ReadRegs() == if rst then Reader(0, false) else ReadStep(old(ReadRegs()), old(regs), c.r)
    {
      if rst {
        awHold, wHold, awAddr, wData, bValid := false, false, 0, WData(0, Strobe(false, false, false, false)), false;
        regs, configChanged, softReset, clearCounts := RESET_REGS, false, false, false;
        rData, rValid := 0, false;
        return;
      }
      ReadChannel(c.r);
      WriteChannels(c.w);
    }
  }

  /** What configuration registers answer before any write: stream and core off, 250 MHz / 1000, shift 30, 12 kHz. */
  lemma ResetAnswers(cs: seq<Cycle>, n: nat)
    requires n < |cs| && Run(WriteSide(cs[..n])).writes == []
    ensures var addr, answer := cs[n].r.arAddr % 0x1000, Answer(cs, n);
            && (addr in {0x008, 0x100, 0x104, 0x118, 0x11c, 0x128} ==> answer == 0)
            && (addr == 0x108 ==> answer == 1000) && (addr == 0x120 ==> answer == 250_000)
            && (addr == 0x10c ==> answer == 30) && (addr == 0x124 ==> answer == 12_000)
  {
    WritesPair(WriteSide(cs[..n]));
  }

  /** The write that an edge makes, if it makes one. */
  predicate Makes(t: Trace, t': Trace, addr: nat, bit: nat)
    requires bit > 0
  {
    && |t'.writes| == |t.writes| + 1
    && var w := t'.writes[|t.writes|]; w.addr == addr && w.data / bit % 2 == 1
  }

  /** Each pulse is high exactly after an edge that writes its bit, or for the configuration pulse its addresses. */
  lemma PulsesFollowWrites(ins: seq<In>, i: In)
    ensures var t, t' := Run(ins), Run(ins + [i]);
            && (t'.s.clearCounts <==> Makes(t, t', 0x020, 1))
            && (t'.s.softReset <==> Makes(t, t', 0x008, 2))
            && (t'.s.configChanged <==>
                |t'.writes| == |t.writes| + 1 && t'.writes[|t.writes|].addr in
                  {0x008, 0x100, 0x104, 0x108, 0x10c, 0x118, 0x11c, 0x120, 0x124, 0x128})
  {
    assert (ins + [i])[..|ins|] == ins;
  }

  /** Byte `n` of a word, `lane` being 256 to the `n`. */
  function ByteOf(v: nat, lane: nat): nat
    requires lane > 0
  {
    v / lane % 256
  }

  lemma LanesJoin(a: nat, b: nat, c: nat, d: nat, v: nat)
    requires a < 256 && b < 256 && c < 256 && d < 256 && v == a + b * 0x100 + c * 0x1_0000 + d * 0x100_0000
    ensures ByteOf(v, 1) == a && ByteOf(v, 0x100) == b && ByteOf(v, 0x1_0000) == c && ByteOf(v, 0x100_0000) == d
  {
    assert v % 256 == a && v / 0x100 == b + c * 0x100 + d * 0x1_0000;
    assert v / 0x1_0000 == c + d * 0x100;
    assert v / 0x100_0000 == d;
  }

  /** A write replaces exactly the bytes whose strobe is set. */
  lemma MergeByBytes(was: nat, data: nat, e: Strobe)
    ensures var v := Merge(was, data, e);
            && v < WORD
            && ByteOf(v, 1) == ByteOf(if e.b0 then data else was, 1)
            && ByteOf(v, 0x100) == ByteOf(if e.b1 then data else was, 0x100)
            && ByteOf(v, 0x1_0000) == ByteOf(if e.b2 then data else was, 0x1_0000)
            && ByteOf(v, 0x100_0000) == ByteOf(if e.b3 then data else was, 0x100_0000)
  {
    LanesJoin(ByteOf(if e.b0 then data else was, 1), ByteOf(if e.b1 then data else was, 0x100),
              ByteOf(if e.b2 then data else was, 0x1_0000), ByteOf(if e.b3 then data else was, 0x100_0000),
              Merge(was, data, e));
  }

  /** The soft reset pulse never comes alone, so the crossing's update is the configuration pulse in every run. */
  lemma SoftResetIsConfigChange(ins: seq<In>)
    ensures var s := Run(ins).s; (s.configChanged || s.softReset) == s.configChanged
  {
  }
}
