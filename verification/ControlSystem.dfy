/**
 The whole way of a setting: from a command at the bridge, over the bus and the register file, across the
 clock domains, to the configuration that the receiver runs with.
 */
module ControlSystem {
  import A = AxiLite
  import B = Bridge
  import C = ControlPath
  import ConfigSync
  import opened Modular

  /** The bridge's register writes as writes on the bus, all four bytes each. */
  function BusWrites(writes: seq<B.RegWrite>): (ws: seq<A.Write>)
    ensures |ws| == |writes|
  {
    if writes == [] then []
    else
      var w := writes[|writes| - 1];
      BusWrites(writes[..|writes| - 1]) + [A.Write(w.addr, w.value, A.EVERY_BYTE)]
  }

  lemma {:induction false} ReplayIsApplied(writes: seq<B.RegWrite>)
    ensures B.Replay(writes) == A.ApplyAll(A.RESET_REGS, BusWrites(writes))
  {
    if writes != [] {
      ReplayIsApplied(writes[..|writes| - 1]);
      var ws := BusWrites(writes);
      assert ws[..|ws| - 1] == BusWrites(writes[..|writes| - 1]);
    }
  }

  /** The slave's register file after a run on the bus is the writes that fired, applied in order. */
  lemma {:induction false} RegistersAreWrites(es: seq<C.Edge>)
    ensures A.Paired(C.Run(es).bus)
  {
    if es == [] {
      A.WritesPair([]);
    } else {
      var init, e := es[..|es| - 1], es[|es| - 1];
      RegistersAreWrites(init);
      if C.HasBus(e) {
        A.StepPaired(C.Run(init).bus, e.i);
      }
    }
  }

  /** What the receiver is configured with after a run of both clocks. */
  function ReceiverConfig(es: seq<C.Edge>): map<nat, nat> {
    ConfigSync.Run(C.ZERO, C.Run(es).crossing).s.data
  }

  /**
   Once the bridge's writes have gone over the bus and three sample-clock edges have passed, the receiver runs with the
   bridge's registers; if its enable bit is set, the stream is on in software and every setting that the receiver uses
   is the one in software.
   */
  lemma ReceiverMatchesSettings(steps: seq<B.Step>, es: seq<C.Edge>, tail: seq<C.Edge>)
    requires C.AdcClockKeepsUp(es) && !C.Run(es).bus.s.configChanged
    requires C.Run(es).bus.writes == BusWrites(B.Run(steps).bus.writes) && C.ConfigWrites(C.Run(es).bus.writes) > 0
    requires C.NoWrites(es, tail) && C.AdcCount(tail) >= 3
    ensures var s, data := B.Run(steps), ReceiverConfig(es + tail);
            && data == s.bus.regs
            && (B.EnableBit(data) ==> s.rx.enabled && B.Matches(data, s.rx))
  {
    B.RunInv(steps);
    ReplayIsApplied(B.Run(steps).bus.writes);
    RegistersAreWrites(es);
    C.ReceiverGetsTheRegisterFile(es, tail);
  }

  // ---- status ------------------------------------------------------------------------------------------------------

  const REG_CORE_ID := 0x000
  const REG_CORE_VERSION := 0x004
  const REG_ADC_STATUS := 0x00c
  const REG_ADC_PEAK := 0x010
  const REG_ADC_RMS := 0x014
  const REG_OR_COUNT := 0x018
  const REG_CLIP_COUNT := 0x01c
  const REG_ADC_TIMESTAMP_L := 0x024
  const REG_ADC_TIMESTAMP_H := 0x028
  const REG_ADC_DEBUG_FLAGS := 0x02c
  const REG_ADC_DVALID_COUNT := 0x030
  const REG_ADC_CFG_UPDATE_COUNT := 0x034
  const REG_DDC0_SAMPLES := 0x110
  const REG_DDC0_OVERFLOW := 0x114

  /** The identity and the levels, by the names that the firmware gives the addresses. */
  predicate LevelsRead(t: A.Status, addr: nat, answer: nat) {
    && (addr == REG_CORE_ID ==> answer == 0x5344_5231)
    && (addr == REG_CORE_VERSION ==> answer == 0x0001_0000)
    && (addr == REG_ADC_STATUS ==>
          answer < 8 && (answer / 2 % 2 == 1 <==> t.locked) && (answer / 4 == 1 <==> t.overrange))
    && (addr == REG_ADC_PEAK ==> answer == t.peak)
    && (addr == REG_ADC_RMS ==> answer == t.rms)
    && (addr == REG_ADC_DEBUG_FLAGS ==> answer == t.debugFlags)
  }

  predicate CountsRead(t: A.Status, addr: nat, answer: nat) {
    && (addr == REG_OR_COUNT ==> answer == t.overranges)
    && (addr == REG_CLIP_COUNT ==> answer == t.clips)
    && (addr == REG_ADC_DVALID_COUNT ==> answer == t.valids)
    && (addr == REG_ADC_CFG_UPDATE_COUNT ==> answer == t.updates)
    && (addr == REG_DDC0_SAMPLES ==> answer == t.samples)
    && (addr == REG_DDC0_OVERFLOW ==> answer == t.overflows)
  }

  /** The firmware's map of the status registers is the hardware's: each read finds what its name says. */
  lemma StatusRegistersAgree(cs: seq<A.Cycle>, n: nat)
    requires n < |cs|
    ensures var addr, t := cs[n].r.arAddr % 0x1000, cs[n].r.status;
            LevelsRead(t, addr, A.Answer(cs, n)) && CountsRead(t, addr, A.Answer(cs, n))
  {
    var addr, t := cs[n].r.arAddr % 0x1000, cs[n].r.status;
    AnswerByAddress(A.RegsAt(cs, n), t, addr);
  }

  lemma AnswerByAddress(regs: map<nat, nat>, t: A.Status, addr: nat)
    ensures LevelsRead(t, addr, A.ReadData(regs, t, addr)) && CountsRead(t, addr, A.ReadData(regs, t, addr))
    ensures addr == REG_ADC_STATUS && A.CONTROL in regs ==> A.ReadData(regs, t, addr) % 2 == regs[A.CONTROL] % 2
  {
  }

  /** Two reads of the time stamp, low half and high half, of one moment make it whole. */
  lemma TimestampHalvesJoin(cs: seq<A.Cycle>, m: nat, n: nat)
    requires m < |cs| && n < |cs| && cs[m].r.status.timestamp == cs[n].r.status.timestamp
    requires cs[m].r.arAddr % 0x1000 == REG_ADC_TIMESTAMP_L && cs[n].r.arAddr % 0x1000 == REG_ADC_TIMESTAMP_H
    ensures A.Answer(cs, m) < WORD && A.Answer(cs, m) + WORD * A.Answer(cs, n) == cs[n].r.status.timestamp
  {
  }
}
