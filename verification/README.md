# SDR receive chain: a verified model

This project models the stateful core of an SDR receive chain and proves what it promises: the FPGA
data path from ADC sample to packet, the control path from command to configuration, the bare-metal
bridge with its DMA, and the packet and spectrum protocols between device and backend.

Each hardware block is a class whose fields are its registers and whose `Clock` or `Tick` method is one
edge; the method is proved equal to a step function, and the theorems are about every run of that
function, with counts and word sequences that never wrap beside the registers that do. Each object of
the backend, the simulated device and the bridge is a class whose methods are proved equal to functions
of the old state. Verilog and C integer widths are written out.

| modules | what they cover |
|---|---|
| `GrayCode`, `AsyncFifo` | the asynchronous FIFO under every interleaving of its clocks and every outcome of a marginal capture |
| `CicDecimator`, `DcOffset`, `Cordic`, `CordicTable`, `Nco` | fixed-point arithmetic against exact integers and reals |
| `ConfigSync`, `AxiLite`, `ControlPath`, `Bridge`, `IqDma`, `ControlSystem`, `SettingsPath` | from command to receiver configuration and to the first header, and the packet DMA |
| `IqPacketizer`, `PacketPieces`, `Datagrams`, `FifoStream`, `StreamPath`, `DdcOutput`, `HeaderLayout` | framing, cut packets, datagrams before and behind the FIFO, numbering, time stamps, back-pressure, header words |
| `LittleEndian`, `Packets`, `WireLayout`, `IqLink`, `IqStream` | header codec, loss accounting, and the packetizer's words tallied at the receiver |
| `PsdReassembly`, `PsdAccounting`, `PsdLink` | spectrum frames: split, lose, reorder, reassemble, account |
| `Modular`, `Rounding`, `Sequences`, `Options` | arithmetic, sequences and options that the others share |

`dafny verify dfyconfig.toml` checks everything.

## Where the code and its documentation part

- Section 6.3 of docs/network_protocol.md asks for the ADC tick of the first sample. The code seeds the
  time stamp with the ADC counter of the reconfiguration strobe, and only when the strobe finds the
  stream enabled. A stream that is enabled from the disabled state is therefore stamped with the counter
  of the moment it was switched off, or zero if it never ran (`StreamPath.FirstStampIff`).
- The backend's `timestamp_gaps` equals the number of loss bursts exactly when no burst spans a
  multiple of 2^64 ticks (`IqLink.VisibleIffNoHiddenBurst`); packets without samples never show a gap.
- A spectrum whose bin count is not a multiple of 512 loses its tail
  (`PsdLink.AllBinsIffWholeSegments`); the device accepts only 4096 bins.
- Frames 2^31 or more apart are not recognised as older (`PsdReassembly.OlderIffWithinHalf`).
- Configuration updates without a sample-clock edge between them can cancel; the edge is exactly what it
  takes (`ConfigSync.SpacedIffAlwaysConserved`). An update on the very edge that copies the word can leave
  a mix of two; three edges between updates prevent it (`ConfigSync.ThreeEdgesNeverTear`). The bus keeps
  both distances at the clock periods of the constraints (`ControlPath.ReceiverConfigIsWhole`).
- A reconfiguration one cycle after a sample makes the stream refuse a sample although samples are 18
  cycles apart (`DdcOutput.StrobeLosesSample`). Without reconfiguration 17 cycles are enough from reset,
  except in packets of one sample (`DdcOutput.SafeFromResetIff`).
- Disabling or reconfiguring cuts the packet in progress without TLAST, and a sample taken at that edge
  reaches neither a packet nor a counter (`PacketPieces.NothingLostIff` is the exact condition,
  `PacketPieces.StrobeLosesOfferedSample` a run that loses one).
- The words of a packet that was cut short go out in front of the next whole packet, in one datagram with
  it. That datagram unpacks to the packet's header exactly when no such word was out, or the first cut
  packet among them had its whole header out and announced the same (`Datagrams.RunUnpacksIff`). A packet
  cut after its first word makes the next one, number 0 with both flags, unreadable
  (`Datagrams.FirstWordWaits`, `Datagrams.CutWordSpoilsNextPacket`).
- `set_rx` cuts stream, channel and rate to 32 bits before it checks them, so a rate of 2^32 + 250000 is
  accepted as 250000; a frequency is taken whole (`Bridge.SetRxAllOrNothing`).
- When the DMA does not start for new settings of a running stream, software still shows the old
  stream as enabled while the receiver is off (`Bridge.AgreementLostIff`).
- If hardware initialisation were repeated on a running driver and failed, an unfilled buffer could be
  forwarded (`IqDma.ForwardArrivedIff`); the firmware initialises once.
- A constant input approached from below settles with a remaining output of one least significant bit
  (`DcOffset.ConstantSettles`).

## Model

| member | source | states |
|---|---|---|
| `GrayCode.GrayIsShiftXor` | fpga/rtl/stream/axis_async_fifo.v:48-50 | The recursive Gray code used in the proofs is `(bin >> 1) ^ bin`, for every width |
| `GrayCode.GrayInjective` | fpga/rtl/stream/axis_async_fifo.v:56 | Two pointers in range have equal Gray codes exactly when they are equal |
| `GrayCode.GrayAdjacent` | fpga/rtl/stream/axis_async_fifo.v:47-50 | For every width, consecutive pointers, the wrap to zero included, have Gray codes that differ in exactly one bit |
| `GrayCode.CaptureIsOldOrNew` | fpga/rtl/stream/axis_async_fifo.v:70-71 | Sampling a code that changes in one bit, each bit independently old or new, yields the old or the new code |
| `GrayCode.FlipIsHalfTurn` | fpga/rtl/stream/axis_async_fifo.v:52-55 | Inverting the two top bits of a code is adding half the pointer range |
| `GrayCode.FullTestExact` | fpga/rtl/stream/axis_async_fifo.v:52-55 | The Gray-coded full test holds exactly when the pointers are DEPTH apart modulo 2 DEPTH |
| `AsyncFifo.CapturedCount` | fpga/rtl/stream/axis_async_fifo.v:70-90 | A synchroniser that samples a pointer while it steps holds the Gray code of the count before or after the step |
| `AsyncFifo.StepKeepsInv` | fpga/rtl/stream/axis_async_fifo.v:62-95 | Every edge of either clock or of both, with any mix of old and new bits in the synchronisers, keeps the invariant that ties pointers, stale views, flags and memory to the words pushed and popped |
| `AsyncFifo.RunInv` | fpga/rtl/stream/axis_async_fifo.v:62-95 | The invariant holds in every run that starts from reset, with staggered release |
| `AsyncFifo.RunIsBoundedQueue` | fpga/rtl/stream/axis_async_fifo.v:44-95 | In every such run what the consumer took is a prefix of what the producer gave, by the handshake signals at the two sides; occupancy is at most DEPTH, a word is accepted only with room, and what `m_tdata` offers when `m_tvalid` is high is the next word |
| `AsyncFifo.RunTransfers` | fpga/rtl/stream/axis_async_fifo.v:44-60 | The words that the pointers count are exactly those at write edges with `s_tvalid` and `s_tready`, and those on `m_tdata` at read edges with `m_tvalid` and `m_tready` |
| `AsyncFifo.OfferHeld` | fpga/rtl/stream/axis_async_fifo.v:45-60 | A word on offer stays, unchanged, over any edges of either clock at which `m_tready` is low |
| `AsyncFifo.ReaderDrains` | fpga/rtl/stream/axis_async_fifo.v:81-95 | Nothing is stuck: with the write clock silent a ready consumer takes every stored word within their number and three more of its edges |
| `AsyncFifo.RunNeverOverwrites` | fpga/rtl/stream/axis_async_fifo.v:72-74 | In every run no edge changes the slot of a word that was pushed and not popped |
| `AsyncFifo.FullExactAfterThree` | fpga/rtl/stream/axis_async_fifo.v:70-77 | After three write edges with the read clock silent, `s_full` holds exactly when DEPTH words are stored |
| `AsyncFifo.EmptyExactAfterThree` | fpga/rtl/stream/axis_async_fifo.v:89-93 | After three read edges with the write clock silent, `m_empty` holds exactly when no word is stored |
| `AsyncFifo.AxisAsyncFifo.WriteEdge` | fpga/rtl/stream/axis_async_fifo.v:62-79 | The write-clock block on the registers is the step function of the proofs |
| `AsyncFifo.AxisAsyncFifo.ReadEdge` | fpga/rtl/stream/axis_async_fifo.v:81-95 | The read-clock block on the registers is the step function of the proofs |
| `AsyncFifo.AxisAsyncFifo.Tick` | fpga/rtl/stream/axis_async_fifo.v:62-95 | One edge of either clock, or of both at once, updates all registers as the step function does |
| `CicDecimator.WrapIsTwosComplement` | fpga/rtl/dsp/cic_decimator.v:16-20 | The register wrap used in the proofs keeps the low 56 bits, read as two's complement |
| `CicDecimator.CombOfIntegrators` | fpga/rtl/dsp/cic_decimator.v:43-56 | Differences of length R of the integrals, one per stage, are moving sums, for any number of stages and over unbounded integers |
| `CicDecimator.RunTracks` | fpga/rtl/dsp/cic_decimator.v:28-62 | In every run, with any gaps, each 56-bit register holds the wrapped value of the unbounded filter |
| `CicDecimator.OutputsAreMovingSums` | fpga/rtl/dsp/cic_decimator.v:25-62 | For any number of stages and any programmed 16-bit rate, zero standing for one: one output per that many samples, each the moving sum modulo 2^56, however often the integrators wrapped |
| `CicDecimator.ThreeStageExact` | fpga/rtl/dsp/cic_decimator.v:25-62 | For any programmed rate R, zero standing for one, while R^3 times the largest sample is below 2^55: one output per R samples, output k being exactly the sum of x[kR-4-a-b-c] over a, b, c in [0, R) |
| `CicDecimator.SupportedRatesAreExact` | fpga/rtl/dsp/cic_decimator.v:25-62 | So it is at programmed rates of 250, 500, 1000 and 2000 for samples of magnitude up to 2^17 |
| `CicDecimator.Decimator.AddToIntegrators` | fpga/rtl/dsp/cic_decimator.v:43-46 | All integrators add the value their predecessor had before the edge |
| `CicDecimator.Decimator.RunCombs` | fpga/rtl/dsp/cic_decimator.v:50-56 | The comb loop updates all delays and yields the chain's output |
| `CicDecimator.Decimator.Clock` | fpga/rtl/dsp/cic_decimator.v:28-63 | One clock edge updates the registers as the step function does, reset included |
| `ConfigSync.UpdatesConserved` | fpga/rtl/util/config_sync.v:22-48 | If a destination edge falls between updates: updates = delivered pulses + toggles in flight, and with nothing in flight the destination holds the last value |
| `ConfigSync.QuietConverges` | fpga/rtl/util/config_sync.v:22-48 | Once three destination edges have fallen without an update, with any source edges among them, every update is delivered and `dst_data` is the last held value |
| `ConfigSync.UpdatesAccounted` | fpga/rtl/util/config_sync.v:22-48 | In every run updates = delivered pulses + toggles in flight + twice the updates that flip the toggle back unseen, so updates are conserved exactly when none does |
| `ConfigSync.SpacedIffAlwaysConserved` | fpga/rtl/util/config_sync.v:22-48 | A destination edge between any two updates is exactly the condition under which updates are conserved for every outcome of the captures |
| `ConfigSync.UnspacedUpdatesVanish` | fpga/rtl/util/config_sync.v:26-29 | A concrete loss: two updates between destination edges cancel and neither arrives |
| `ConfigSync.DataIsOneUpdate` | fpga/rtl/util/config_sync.v:42-44 | With three destination edges between updates the destination always holds one whole value of the source, although a word that changes while it is copied may be captured as any word at all |
| `ConfigSync.UntornDataIsOneUpdate` | fpga/rtl/util/config_sync.v:42-44 | In every run in which no update falls on the edge that copies, the destination holds one whole value |
| `ConfigSync.ThreeEdgesNeverTear` | fpga/rtl/util/config_sync.v:32-45 | With three destination edges between updates no update falls on an edge that copies |
| `ConfigSync.TearTakesAnything` | fpga/rtl/util/config_sync.v:42-44 | An update on the edge that copies can leave any word whatever |
| `ConfigSync.WholeForEveryWordIff` | fpga/rtl/util/config_sync.v:42-44 | The destination holds one whole value throughout, whatever words are captured at the copies, exactly when no update falls on an edge that copies |
| `ConfigSync.TwoEdgesCanTear` | fpga/rtl/util/config_sync.v:32-45 | Two destination edges between updates are not enough: a concrete run leaves an arbitrary word |
| `ConfigSync.ConfigSynchroniser.SrcClock` | fpga/rtl/util/config_sync.v:22-30 | The source block on the registers, reset included |
| `ConfigSync.ConfigSynchroniser.DstClock` | fpga/rtl/util/config_sync.v:32-46 | The destination block on the registers, reset included |
| `ConfigSync.ConfigSynchroniser.Tick` | fpga/rtl/util/config_sync.v:26-45 | One edge of either clock or of both, out of reset, is the step function of the proofs |
| `AxiLite.WritesPair` | fpga/rtl/ctrl/axi_lite_slave.v:63-100 | In every run of the bus, write n combines the n-th accepted address with the n-th accepted data, every write gets one response, and the register file is the writes applied in order |
| `AxiLite.ResponseHeld` | fpga/rtl/ctrl/axi_lite_slave.v:93-100 | A response stays until it is taken, and meanwhile nothing is accepted or written |
| `AxiLite.ReadsAreAnswered` | fpga/rtl/ctrl/axi_lite_slave.v:65-108 | In every run of the bus each accepted read is answered once and in order, with what its address held in the cycle of its acceptance, the registers being the writes made before |
| `AxiLite.ReadBack` | fpga/rtl/ctrl/csr_regfile.v:201-229 | A read of a configuration register is answered with the last whole word written to it |
| `AxiLite.SoftResetIsConfigChange` | fpga/rtl/top/sdr_top.v:244 | In every run the soft reset pulse never comes without the configuration pulse, so their disjunction, the update of the crossing, is the latter |
| `AxiLite.PulsesFollowWrites` | fpga/rtl/ctrl/csr_regfile.v:108-137 | Each pulse is high exactly after an edge that makes its write: bit 0 at 0x020, bit 1 at 0x008, or any configuration address |
| `AxiLite.MergeByBytes` | fpga/rtl/ctrl/csr_regfile.v:118-122 | A write replaces exactly the bytes whose strobe is set |
| `AxiLite.ResetAnswers` | fpga/rtl/ctrl/csr_regfile.v:98-112 | Before any write each configuration register answers its reset value |
| `AxiLite.AxiLiteSlave.RegisterWrite` | fpga/rtl/ctrl/csr_regfile.v:114-137 | A register write replaces the enabled bytes at a configuration address and raises `config_changed`, the soft reset and the clear-counts pulse as its address and data say |
| `AxiLite.AxiLiteSlave.Clock` | fpga/rtl/ctrl/axi_lite_slave.v:68-110 | One edge of the write and read channels on the registers, reset included, is the step functions of the proofs, a read taking what the registers held before the edge |
| `ControlPath.BusWritesAreSpaced` | fpga/rtl/top/sdr_top.v:238-249 | If the sample clock rises at least once in any three bus cycles, bus writes never update the crossing twice between sample edges |
| `ControlPath.EveryConfigWriteIsDelivered` | fpga/rtl/top/sdr_top.v:238-249 | Then configuration writes = delivered pulses + toggles in flight + the one being raised |
| `ControlPath.HeldValueIsRegisterFile` | fpga/rtl/top/sdr_top.v:238-249 | Between register writes the crossing holds the register file as it is |
| `ControlPath.ReceiverGetsTheRegisterFile` | fpga/rtl/top/sdr_top.v:238-249 | When no write follows and three sample edges have fallen, with any bus edges among them, the receiver's configuration is the register file |
| `ControlPath.UpdatesAreThreeApart` | fpga/rtl/top/sdr_top.v:238-249 | If a sample edge falls strictly inside every bus cycle, as the clock periods of 4 and 10 ns in fpga/constraints/clocks.xdc imply, three sample edges separate any two updates |
| `ControlPath.ReceiverConfigIsWhole` | fpga/rtl/top/sdr_top.v:238-249 | Then the receiver's configuration is never a mix of two: it is the reset value or a register file as it once was |
| `ControlSystem.ReceiverMatchesSettings` | fpga/rtl/top/sdr_top.v:238-249 | From command to receiver: when the bridge's writes have been made and three sample edges have fallen, with any bus edges among them, the receiver has the bridge's registers, and a set enable bit there means the stream is on in software and every setting matches |
| `ControlSystem.StatusRegistersAgree` | ps/baremetal/src/sdr_regs.h:12-32 | Each status read finds what the firmware's name for its address says |
| `ControlSystem.TimestampHalvesJoin` | ps/baremetal/src/sdr_regs.h:21-22 | The two halves of the time stamp, read of one moment, make it whole |
| `SettingsPath.CrossingsAgree` | fpga/rtl/top/sdr_top.v:125-151 | The crossing of register files and the crossing of configuration words, as the top level forms them, move together in every run |
| `SettingsPath.HoldsTheSettings` | fpga/rtl/top/sdr_top.v:125-151 | When the bridge's writes have been made, the crossing holds exactly the configuration for the software settings, and has delivered it when nothing is in flight |
| `SettingsPath.SetRxReachesHeader` | fpga/rtl/top/sdr_top.v:238-249 | From command to header, over any bus and sample edges: when a bus edge raises the last write of an accepted `set_rx` and none follows, two or three sample edges deliver the settings, and the first sample edge after them with room on the output begins the header of packet 0, with both first-packet flags, the base time stamp, and the frequency, rate and bandwidth that the request names, or the ones before it where it names none; one sample edge in every bus cycle is what the run must have |
| `SettingsPath.HeaderUnpacksToSettings` | fpga/rtl/stream/iq_packetizer.v:128-145 | On the wire that header unpacks, whatever payload follows, to the fields of the settings |
| `SettingsPath.HeaderWordsAreRegisters` | fpga/rtl/top/sdr_top.v:125-151 | For any register file, words 6 to 9 of a header latched from it are the frequency, rate and bandwidth registers, word 12 its decimation, zero standing for one, and word 11 the gain and the flags |
| `SettingsPath.StreamIsOnIff` | fpga/rtl/top/sdr_top.v:125-151 | The stream is on exactly if bit 0 of both control registers is set |
| `IqPacketizer.HeldUntilAccepted` | fpga/rtl/stream/iq_packetizer.v:90-93 | A presented word stays unchanged while the sink stalls, for any number of cycles, whatever enable and reconfiguration do |
| `IqPacketizer.LastNeedsValid` | fpga/rtl/stream/iq_packetizer.v:90-93 | In every run TLAST is low while no word is presented |
| `IqPacketizer.SteadyStreamIsPackets` | fpga/rtl/stream/iq_packetizer.v:108-178 | While enabled and not reconfigured, under any back-pressure and input gaps, the output words are whole packets of 16 header words and FRAME_SAMPLES consumed samples in order, TLAST only on the last, then the start of the next packet; packets are numbered, stamped and flagged consecutively |
| `PacketPieces.EveryRunIsPieces` | fpga/rtl/stream/iq_packetizer.v:90-178 | In every run, with the stream disabled and reconfigured at will, the words are whole packets and packets cut short, then the steady run since the last cut; consumed samples are those in the pieces in order, with those taken at the cutting edges, one cut with exactly its lost sample for each edge that disables or reconfigures; `packet_count` counts the whole packets; the first packet after a cut is marked as first; inputs within their wires make headers and samples within their widths |
| `PacketPieces.NothingLostIff` | fpga/rtl/stream/iq_packetizer.v:62-107 | No sample is lost exactly when no edge that disables or reconfigures finds `s_axis_tready` and a valid sample |
| `PacketPieces.StrobeLosesOfferedSample` | fpga/rtl/stream/iq_packetizer.v:62-107 | A run from reset that loses one: a strobe at the first payload cycle while a sample is offered |
| `PacketPieces.LastMarksWhole` | fpga/rtl/stream/iq_packetizer.v:161-162 | TLAST marks the last word of a whole packet and no other; a packet cut short has none |
| `Datagrams.DatagramOfPieces` | fpga/rtl/stream/iq_packetizer.v:155-173 | Cut at TLAST, datagram n is the words of the packets cut since the whole packet before it, then whole packet number n |
| `Datagrams.RunDatagrams` | fpga/rtl/stream/iq_packetizer.v:90-178 | In every run the words that have left, cut at TLAST, are such datagrams, with the word that waited at the start before all |
| `Datagrams.UnpacksIffWords` | common/protocol/packets.py:81-96 | Words unpack to a header exactly when the first sixteen of them are that header's words |
| `Datagrams.DatagramUnpacksIff` | fpga/rtl/stream/iq_packetizer.v:95-107 | A datagram of cut packets and a whole one unpacks to the whole one's header exactly when no word was cut, or the first cut packet with a word had its whole header out and announced the same; left open only where the magic number recurs in the header at the very word of the cut |
| `Datagrams.RunUnpacksIff` | fpga/rtl/stream/iq_packetizer.v:90-178 | So it is for every datagram of every run from reset with inputs within their widths |
| `Datagrams.FirstWordWaits` | fpga/rtl/stream/iq_packetizer.v:90-108 | A run from reset that ends with the first word of a cut packet still waiting |
| `Datagrams.CutWordSpoilsNextPacket` | fpga/rtl/stream/iq_packetizer.v:90-108 | Then the datagram of the next packet does not unpack at all |
| `FifoStream.FifoDeliversTheStream` | fpga/rtl/top/sdr_top.v:315-329 | Packetizer and FIFO as one machine, in every interleaving of the clocks: what comes out is what the packetizer handed over, in order, all but at most DEPTH words, and the datagrams cut from it are the packetizer's first ones |
| `FifoStream.DeliveredUnpacksIff` | fpga/rtl/top/sdr_top.v:315-329 | Each datagram behind the FIFO is a whole packet with what was cut before it, and unpacks under that same exact condition |
| `IqPacketizer.TimestampsAdvance` | fpga/rtl/stream/iq_packetizer.v:161-168 | With constant settings packet n is stamped start + n * decimation * FRAME_SAMPLES modulo 2^64 |
| `IqPacketizer.IqPacketizer.EmitHeaderWord` | fpga/rtl/stream/iq_packetizer.v:123-153 | The HEADER branch on the registers is the step function |
| `IqPacketizer.IqPacketizer.EmitPayloadWord` | fpga/rtl/stream/iq_packetizer.v:155-173 | The PAYLOAD branch on the registers is the step function |
| `IqPacketizer.IqPacketizer.Clock` | fpga/rtl/stream/iq_packetizer.v:69-181 | One clock edge on the registers, reset included, is the step function of the proofs |
| `StreamPath.RunInv` | fpga/rtl/top/sdr_top.v:139-151 | In every run of both clocks the sequence number is the count of packets since the stream was disabled or reconfigured, and the open packet's settings are the configuration in force |
| `StreamPath.HeadersFollowEpisodes` | fpga/rtl/stream/iq_packetizer.v:95-121 | In every run of both clocks no packet is under way and the number is zero while either enable bit is off; every header carries the number of packets since the stream was enabled or reconfigured, both first-packet flags exactly when that is zero, and the settings of one configuration word |
| `StreamPath.FlagsAreStatus` | fpga/rtl/stream/iq_packetizer.v:111-120 | A header takes the status of the cycle in which it starts, the ADC range in bit 0 and an overflow in bit 1 |
| `StreamPath.EmittedWordsFollowEpisodes` | fpga/rtl/stream/iq_packetizer.v:128-145 | On the wire, header word 3 is that number and word 11 carries those flags |
| `StreamPath.ConfigChangesEndEpisodes` | fpga/rtl/util/config_sync.v:42-48 | The configuration changes only at an edge that ends the episode and restarts numbering |
| `StreamPath.HeadersAreOneUpdate` | fpga/rtl/util/config_sync.v:42-48 | With three sample edges between updates every header's settings are those of one update |
| `StreamPath.StampsFollowBase` | fpga/rtl/stream/iq_packetizer.v:95-121 | In every run packet n of an episode is stamped base + n * decimation * FRAME_SAMPLES modulo 2^64, the base being the ADC counter at the last strobe that found the stream enabled, zero if there was none |
| `StreamPath.BaseByStrobe` | fpga/rtl/stream/iq_packetizer.v:95-107 | While the stream is off the base is the ADC counter at which it was switched off |
| `StreamPath.FirstStampIff` | fpga/rtl/stream/iq_packetizer.v:95-111 | The first header of an episode is stamped with the opening strobe's ADC counter if that strobe found the stream enabled, else with the counter at which the stream had been switched off; so it carries the strobe's tick exactly when the strobe found it enabled or the two agree |
| `StreamPath.FirstTimestampIsStale` | fpga/rtl/stream/iq_packetizer.v:95-107 | A concrete run: the first packet after power-up is stamped 0 although the ADC counter is not |
| `DdcOutput.EverySampleAccountedFor` | fpga/rtl/dsp/ddc_core.v:168-191 | In every run each saturated sample is handed over once and in order, waits in the register, or is counted in `overflow_count`; both counters are exact modulo 2^32 |
| `DdcOutput.NoOverflowWhenApart` | fpga/rtl/dsp/ddc_core.v:168-191 | With an always-ready sink and a steady stream, from any start that is in time, samples at least 18 cycles apart are never refused; `overflow_count` does not move |
| `DdcOutput.SafeStartsAreInTime` | fpga/rtl/dsp/ddc_core.v:168-191 | The starts from which samples 18 cycles apart are never refused are exactly those in time: the register empty, the packetizer taking input, or its wait plus the held sample's age at most 18 |
| `DdcOutput.StrobeLosesSample` | fpga/rtl/dsp/ddc_core.v:179-188 | A start that is not in time occurs: a strobe one cycle after a sample, and then a sample is refused although all are 18 cycles apart |
| `DdcOutput.SafeFromResetIff` | fpga/rtl/dsp/ddc_core.v:168-191 | From reset no sample is ever refused exactly when samples are at least 18 cycles apart for packets of one sample, and at least 17 for longer ones |
| `DdcOutput.SeventeenIsTooClose` | fpga/rtl/dsp/ddc_core.v:179-188 | From reset, with packets of one sample, the third of three samples 17 cycles apart is refused |
| `DdcOutput.SixteenIsTooClose` | fpga/rtl/dsp/ddc_core.v:179-188 | From reset, with packets of any length, a second sample 16 cycles after the first is refused |
| `DdcOutput.DdcOutputRegister.Clock` | fpga/rtl/dsp/ddc_core.v:168-191 | One clock edge on the registers is the step function of the proofs |
| `LittleEndian.UnpackPack` | common/protocol/packets.py:28-29 | Unpacking a packed little-endian structure, whatever follows, restores every value, for any list of members |
| `LittleEndian.PackUnpack` | common/protocol/packets.py:28-29 | Packing what was unpacked reproduces the bytes |
| `Packets.IqRoundTrip` | common/protocol/packets.py:59-105 | An IQ header that packs is 64 bytes and unpacks to itself, whatever payload follows |
| `Packets.IqReverse` | common/protocol/packets.py:82-105 | 64 bytes that unpack are the packed form of what they unpack to |
| `Packets.PsdRoundTrip` | common/protocol/packets.py:135-184 | A PSD header that packs is 72 bytes and unpacks to itself, whatever payload follows |
| `Packets.PsdReverse` | common/protocol/packets.py:161-184 | 72 bytes that unpack are the packed form of what they unpack to |
| `WireLayout.PsdLayout` | common/protocol/packets.py:160-184 | Bytes unpack exactly when they are 72 and their magic, version, length, frame type, format and payload size are right, the first fault being the error raised; and each member is then the little-endian number in its own bytes |
| `WireLayout.PackedPsdLayout` | common/protocol/packets.py:134-158 | A header that packs fills 72 bytes with each member in its own bytes |
| `WireLayout.PsdPacksIff` | common/protocol/packets.py:134-158 | A header packs exactly when it has the constants of the format and every other member is within its width |
| `WireLayout.IqLayout` | common/protocol/packets.py:81-105 | The same for the IQ header and its 64 bytes, the gain being signed |
| `WireLayout.PackedIqLayout` | common/protocol/packets.py:59-79 | An IQ header that packs fills 64 bytes with each member in its own bytes |
| `WireLayout.IqPacksIff` | common/protocol/packets.py:59-79 | An IQ header packs exactly when it has the constants of the format and every other member is within its width |
| `HeaderLayout.EmittedHeaderIsPacked` | fpga/rtl/stream/iq_packetizer.v:128-145 | For every packetizer state the 16 header words, little-endian, are the packed form of the announced header |
| `HeaderLayout.EmittedHeaderUnpacks` | fpga/rtl/stream/iq_packetizer.v:128-145 | The backend unpacks them, whatever payload follows, to exactly the latched fields, and validation passes |
| `IqLink.StreamState.SendIqPacket` | simulator/fake_ac920/server.py:347-376 | The n-th packet of an episode carries n modulo 2^32, n times the tick step modulo 2^64, and the first-packet flags exactly when n is 0 |
| `IqLink.SentHeaderTells` | simulator/fake_ac920/server.py:347-369 | A sent header passes the receiver's checks, carries the stream's settings, and its flags tell what was injected and whether it is the first |
| `IqLink.InjectedFlagsAreCounted` | simulator/fake_ac920/server.py:350-357 | What the device injects is counted at the receiver once for each packet that arrives |
| `IqLink.StreamState.ResetForEnable` | simulator/fake_ac920/server.py:62-66 | Enabling restarts the episode |
| `IqLink.AppState.IngestIqHeader` | rpi/backend/sdr_backend/state.py:45-66 | One header updates the statistics of its own stream only, as the specification function says |
| `IqLink.TallyTells` | rpi/backend/sdr_backend/state.py:54-65 | After any headers: packets is their number, the two flag counters are the headers with flag 1 and with flag 2, and the last fields are those of the last header |
| `IqLink.StreamsAreSeparate` | rpi/backend/sdr_backend/state.py:45-66 | Over any mix of streams each has the statistics of its own headers, and exists exactly if it has any |
| `IqLink.LossOfBurst` | rpi/backend/sdr_backend/state.py:48-50 | The 32-bit sequence arithmetic gives the exact length of any burst shorter than 2^32 |
| `IqLink.GapOfBurst` | rpi/backend/sdr_backend/state.py:51-54 | A timestamp gap is seen exactly when burst length times tick step is not a multiple of 2^64 |
| `IqLink.EpisodeAccounted` | rpi/backend/sdr_backend/state.py:45-61 | For any episode numbered and stamped consecutively from any start, over a link that drops bursts shorter than 2^32, packets + lost is the true span and gaps are the bursts that show |
| `IqLink.LossAccounting` | rpi/backend/sdr_backend/state.py:45-61 | That accounting for the simulated device's sender, whose numbers and stamps start at zero |
| `IqLink.VisibleIffNoHiddenBurst` | rpi/backend/sdr_backend/state.py:51-54 | Gaps never exceed the bursts, and equal them exactly when no burst spans a multiple of 2^64 ticks |
| `IqLink.BurstCanBeHidden` | rpi/backend/sdr_backend/state.py:51-54 | A hidden burst: with empty packets a loss leaves no timestamp gap |
| `IqLink.SupportedRatesCountBursts` | rpi/backend/sdr_backend/state.py:45-61 | For every supported rate and any non-empty packet, gaps equal the loss bursts |
| `IqStream.PacketUnpacks` | fpga/rtl/stream/iq_packetizer.v:128-145 | A packet's words as bytes unpack to exactly the latched fields |
| `IqStream.EpisodeDatagram` | fpga/rtl/stream/iq_packetizer.v:108-178 | After any run, datagram n of a steady stretch is its packet n, and in front of packet 0 the words left over, one that still waited included |
| `IqStream.DatagramsAreNumbered` | fpga/rtl/stream/iq_packetizer.v:108-178 | After any run, the datagrams of a steady stretch unpack to consecutively numbered and stamped headers, the first of them if no word of a cut packet is in front of it |
| `IqStream.ReceiverAccountsForTheStream` | rpi/backend/sdr_backend/state.py:45-61 | End to end: after any run, cut all words at TLAST, lose datagrams of a steady stretch in bursts shorter than 2^32, its first too if words of a cut packet are in front of it, unpack the rest: packets + lost is the true span and gaps are the bursts that show |
| `PsdReassembly.SeqLessIsSerialOrder` | rpi/backend/sdr_backend/psd.py:78-79 | The comparison is the order of section 3.2 of RFC 1982 on 32-bit serial numbers |
| `PsdReassembly.OlderIffWithinHalf` | rpi/backend/sdr_backend/psd.py:78-79 | Of two frame counters, the earlier compares as older exactly when the later is between 1 and 2^31 - 1 ahead modulo 2^32 |
| `PsdReassembly.DecodeBinsLoop` | rpi/backend/sdr_backend/psd.py:81-86 | The loop decodes little-endian 16-bit values in 1/256 dB, rounds each to hundredths of a decibel and ignores an odd last byte |
| `PsdReassembly.HundredthsAreNearest` | rpi/backend/sdr_backend/psd.py:85 | Each published bin is the nearest hundredth of a decibel, ties to the even one |
| `Rounding.RoundIffNearest` | rpi/backend/sdr_backend/psd.py:85 | The rounding is the only integer nearest to the quotient, ties to the even one |
| `PsdReassembly.PsdReassembler.DropOlderFrames` | rpi/backend/sdr_backend/psd.py:66-76 | Removes exactly the older frames of that PSD and adds their number and their missing segments, in any order of removal |
| `PsdReassembly.PsdReassembler.StoreSegment` | rpi/backend/sdr_backend/psd.py:35-37 | Puts a segment into its frame's buffer, made when absent |
| `PsdReassembly.PsdReassembler.PublishFrame` | rpi/backend/sdr_backend/psd.py:46-64 | Removes and counts a complete frame and builds what is published from the segments in index order |
| `PsdReassembly.PublishedTells` | rpi/backend/sdr_backend/psd.py:46-64 | Of a complete frame only a stated range without bins fails, after it was counted; else every field is the header's |
| `PsdReassembly.FirstBinsIsSlice` | rpi/backend/sdr_backend/psd.py:60 | The bins are cut as a Python slice cuts them, a negative length included |
| `PsdReassembly.BoundsAreConsistent` | rpi/backend/sdr_backend/psd.py:88-102 | The published upper frequency is the lower one plus `total_bins` times the published spacing; it is the stated stop frequency if that lies above the start, and otherwise the spacing is the stated one, a thousandth of the millihertz |
| `PsdReassembly.PsdReassembler.IngestSegment` | rpi/backend/sdr_backend/psd.py:33-64 | One call drops, stores and publishes as the specification function says |
| `PsdAccounting.BuffersConserved` | rpi/backend/sdr_backend/psd.py:33-49 | In every run, for any headers at all, buffers created = complete + dropped + in progress |
| `PsdAccounting.NothingOlderRemains` | rpi/backend/sdr_backend/psd.py:33-36 | After each call no buffered frame of that PSD is older than the one just ingested |
| `PsdAccounting.OnlyOvertakenLeave` | rpi/backend/sdr_backend/psd.py:66-76 | Of the other buffered frames a call removes exactly those of the same PSD that are less than 2^31 behind, and leaves the rest as they are |
| `PsdAccounting.SegmentIsKept` | rpi/backend/sdr_backend/psd.py:35-40 | A segment that does not complete its frame is kept in it, in place of an earlier one of the same index |
| `PsdAccounting.WellFormedRun` | rpi/backend/sdr_backend/psd.py:66-76 | With well-formed headers each buffered frame holds at least one and not all of its segments, and each drop adds between one and n - 1 missing segments |
| `PsdLink.PsdSender.SendPsdFrame` | simulator/fake_ac920/server.py:386-422 | Frame n is split into its segments of 512 bins with the right indices, number n modulo 2^32, rounded bin spacing and first-frame flag; without bins it fails and changes nothing |
| `PsdLink.SegmentCarriesItsBins` | simulator/fake_ac920/server.py:391-417 | A segment's payload decodes to the bins from `bin_start`, `bin_count` of them, and its spacing is the nearest millihertz |
| `PsdLink.SentSegmentIsReceived` | rpi/backend/sdr_backend/udp_receiver.py:95-100 | Every segment sent with settings within the header's widths is parsed back from its datagram, header and bins |
| `PsdLink.PayloadIsAsAnnounced` | rpi/backend/sdr_backend/udp_receiver.py:95-100 | Bytes beyond the announced payload are ignored, and a payload cut short is passed on as it is |
| `PsdLink.DecodeEncodeBins` | rpi/backend/sdr_backend/psd.py:81-86 | Decoding restores the 16-bit bins that were encoded |
| `PsdLink.JoinRestoresBins` | rpi/backend/sdr_backend/psd.py:42-50 | Joining the segments in index order restores the frame's bins, whatever order they arrived in |
| `PsdLink.PublishesExactlyTheDelivered` | rpi/backend/sdr_backend/psd.py:33-64 | If segments of a frame arrive in any order, some are lost, and frames keep their order less than 2^31 apart, exactly the fully delivered frames are published, once each and in order, with the bins sent; the other frames and their missing segments are counted exactly, across wrap of `frame_seq` |
| `PsdLink.AllBinsIffWholeSegments` | simulator/fake_ac920/server.py:387-399 | The published bins are all the bins of the frame, rounded, exactly when their number is a multiple of 512 |
| `Bridge.FreqWordIsNearest` | ps/baremetal/src/sdr_regs.h:54-57 | For every frequency up to 108 MHz the word is the nearest integer, within 125000000 in word * 250000000 - f * 2^32, with no 64-bit or 32-bit overflow |
| `Bridge.PutIsBusWrite` | fpga/rtl/ctrl/csr_regfile.v:118-137 | The register file takes a 32-bit write of all four bytes as the whole value |
| `Bridge.SdrControl.ProgramRxRegisters` | ps/baremetal/src/sdr_control.c:320-340 | Stops the DMA and makes exactly the listed writes in order |
| `Bridge.SdrControl.ReadRequest` | ps/baremetal/src/sdr_control.c:348-406 | Accepts a request to a sound state exactly when each field it names is acceptable, and then yields the named fields as requested, the others as before, and the decimation for the rate |
| `Bridge.SdrControl.CmdSetRx` | ps/baremetal/src/sdr_control.c:342-428 | One `set_rx` changes settings, registers and DMA as the specification function says, a failing DMA start included |
| `Bridge.SdrControl.StopStreams` | ps/baremetal/src/sdr_control.c:449-458 | Turns the stream off in software, DMA and registers |
| `Bridge.SdrControl.CmdHello` | ps/baremetal/src/sdr_control.c:241-268 | Takes ports and address up to the first missing field and marks hello only on full success, ports, sockets and address included |
| `Bridge.PsdNeverEnabled` | ps/baremetal/src/sdr_control.c:430-447 | In every run PSD stays off: only the request to switch it off is accepted, and it changes nothing |
| `Bridge.SdrControl.ForwardIqPacket` | ps/baremetal/src/sdr_control.c:531-554 | Sends only after hello with the stream on and a packet of 1088 bytes, counts successes and failures, and returns the source's code, for a null packet too |
| `Bridge.SdrControl.PollIqDma` | ps/baremetal/src/sdr_hw_ac920.c:251-268 | A finished transfer is forwarded when wanted, the DMA armed again, and the source's code returned |
| `Bridge.ProgramTakes` | ps/baremetal/src/sdr_control.c:320-340 | After programming, the enable bit is set, every register matches, and no register changed while the bit was set |
| `Bridge.RunInv` | ps/baremetal/src/sdr_control.c:342-458 | After every sequence of commands, polls and initialisations, with transfers refused at any point: a set enable bit implies the stream is on in software and all programmed registers match; settings always have decimation * rate = 250 MHz and a frequency in range; an armed DMA implies the enable bit; registers are the bus writes applied in order, and only the control register was ever written under a running stream |
| `Bridge.SetRxAllOrNothing` | ps/baremetal/src/sdr_control.c:358-414 | `set_rx` is rejected exactly when a field it names is not acceptable, and then changes nothing; it is accepted exactly when the DMA also starts, and then frequency, rate, channel, bandwidth and mode are those requested, or as before where none is, with decimation 250 MHz / rate; otherwise settings stay and the receiver is off |
| `Bridge.AgreementLostIff` | ps/baremetal/src/sdr_control.c:408-413 | `set_rx` makes software and receiver disagree on the stream exactly when the DMA does not start for new settings of a running stream |
| `Bridge.AgreementCanBeLost` | ps/baremetal/src/sdr_control.c:408-413 | A concrete run that does so |
| `Bridge.ForwardOnlyWhenStreaming` | ps/baremetal/src/sdr_control.c:540-547 | In every run a packet is forwarded exactly when a poll finds a finished transfer after hello, and then the stream is on in software and in the receiver and registers match |
| `Bridge.HelloSeenIffHelloSucceeded` | ps/baremetal/src/sdr_control.c:241-268 | `hello_seen` holds exactly when some earlier hello had version 1, all ports with the two used ones not zero, and a network layer that took it |
| `Bridge.PacketsGoToLastHello` | ps/baremetal/src/sdr_control.c:225-268 | In every run packets go to the ports of the last successful hello and to its address, or if it names none to that of the last control connection before it, cut to 47 characters; and nowhere before the first |
| `Bridge.HelloReplies` | ps/baremetal/src/sdr_control.c:241-268 | Which of its replies a hello gets, exactly |
| `Bridge.CountersCountSends` | ps/baremetal/src/sdr_control.c:540-553 | In every run `iq_packets_forwarded` and `iq_forward_errors` are the packets that the network took and refused, modulo 2^32 |
| `Bridge.RunningRegisters` | ps/baremetal/src/sdr_control.c:320-340 | In every run a set enable bit finds every register, by address, at its value for the settings |
| `Bridge.ProgramWrites` | ps/baremetal/src/sdr_control.c:326-339 | One programming makes thirteen writes, by address, value and order: off, soft reset, counters cleared, the settings, core on, stream on |
| `Bridge.ForwardAnswers` | ps/baremetal/src/sdr_control.c:531-554 | What a handed-on packet, one of another length, or a null pointer is answered, and which counter moves |
| `Bridge.StopTurnsOff` | ps/baremetal/src/sdr_control.c:358-365 | The stop command, or a `set_rx` that asks for the stream to be off, turns it off in software, driver and receiver and changes nothing else |
| `Bridge.PollAnswers` | ps/baremetal/src/sdr_hw_ac920.c:251-268 | A poll answers 0 when there is nothing to do, -1 when the DMA cannot be armed again, else what the network said |
| `Bridge.ForwardedPacketsArrived` | ps/baremetal/src/ac920_sdr_main.c:244-264 | With one hardware initialisation before anything else, as the firmware does it, every forwarding in the whole history comes right after its own transfer, in the engine until then, went idle; and an armed driver always has its transfer in the engine |
| `IqDma.IqDmaDriver.InitHardware` | ps/baremetal/src/sdr_hw_ac920.c:135-160 | Initialisation with each of its failures |
| `IqDma.InitAnswers` | ps/baremetal/src/sdr_hw_ac920.c:135-160 | Initialisation succeeds exactly when the engine is configured, without scatter-gather, and the sockets exist; only a configured engine changes the flags |
| `IqDma.IqDmaDriver.ArmTransfer` | ps/baremetal/src/sdr_hw_ac920.c:77-95 | Submits a transfer when ready; `armed` records whether it was taken |
| `IqDma.IqDmaDriver.StartTransfers` | ps/baremetal/src/sdr_hw_ac920.c:201-210 | Marks running and arms unless armed |
| `IqDma.IqDmaDriver.StopTransfers` | ps/baremetal/src/sdr_hw_ac920.c:212-220 | Clears both flags and resets a ready engine |
| `IqDma.RunSafe` | ps/baremetal/src/sdr_hw_ac920.c:77-268 | In every run of init, start, stop and poll with any busy answers and refusals: armed implies running implies ready, an outstanding transfer implies armed, none is submitted while one is outstanding, and the buffer is forwarded only when none is and at most once per transfer |
| `IqDma.ArmedIsOutstandingIff` | ps/baremetal/src/sdr_hw_ac920.c:77-95 | An armed driver has a transfer in the engine exactly if the engine was not reset by a failed initialisation since it was submitted |
| `IqDma.ForwardArrivedIff` | ps/baremetal/src/sdr_hw_ac920.c:251-268 | A poll forwards a packet whose own transfer went idle exactly under that condition |
| `IqDma.UnfilledBufferCanBeForwarded` | ps/baremetal/src/sdr_hw_ac920.c:139-145 | A run that violates it: initialisation repeated on a running driver, failing after the engine was reset |
| `DcOffset.ConvertIsExact` | fpga/rtl/adc/adc_format_convert.v:14-16 | Offset binary code n is n - 8192, two's complement is itself, always 14-bit |
| `DcOffset.MeanStaysInHull` | fpga/rtl/dsp/dc_offset_remove.v:22-36 | In every run of 16-bit samples, with any resets, gaps and disabled stretches, the mean stays in the hull of zero and the scaled samples |
| `DcOffset.RegisterIsExact` | fpga/rtl/dsp/dc_offset_remove.v:22-36 | The 32-bit accumulator equals the mean over unbounded integers: it never wraps |
| `DcOffset.TruncationIsExact` | fpga/rtl/dsp/dc_offset_remove.v:25-37 | For 14-bit samples the 16-bit output is exactly the sample less the mean |
| `DcOffset.ErrorShrinks` | fpga/rtl/dsp/dc_offset_remove.v:22-36 | The scaled error never changes sign, strictly shrinks in magnitude until it lies in [0, 4096), and is then fixed |
| `DcOffset.SettlesWithin` | fpga/rtl/dsp/dc_offset_remove.v:22-36 | An error of at most 2^k units reaches its limit within 4096 (k + 1) samples; the limit is 0 from above and 4095 from at least one unit below |
| `DcOffset.ConstantSettles` | fpga/rtl/dsp/dc_offset_remove.v:22-37 | From every reachable mean, after 61440 valid samples of a constant, with any gaps, the error is at its limit and every output is 0, or 1 when the mean came from below |
| `DcOffset.BypassPasses` | fpga/rtl/dsp/dc_offset_remove.v:27-43 | Switched off, the block hands samples on unchanged and keeps its mean; without a sample nothing but the valid bit changes |
| `DcOffset.DcOffsetRemove.Clock` | fpga/rtl/dsp/dc_offset_remove.v:27-43 | One clock edge on the registers is the step function of the proofs |
| `Cordic.OutputIsRotated` | fpga/rtl/dsp/cordic_sincos.v:85-130 | Whatever the pipeline held, a phase comes out 18 edges after it went in, rotated 16 times, and the output is valid exactly if the input was |
| `Cordic.AngleConverges` | fpga/rtl/dsp/cordic_sincos.v:92-105 | For any table whose angles never exceed what the later ones can undo, the remaining angle is the phase less the angle turned, without wrap, and within the tail sum |
| `Cordic.TableConverges` | fpga/rtl/dsp/cordic_sincos.v:27-50 | The arctangent table has that property and covers a quadrant |
| `CordicTable.TableIsArctan` | fpga/rtl/dsp/cordic_sincos.v:27-50 | Angle 0 is an eighth of a turn and angle i is the arctangent of 2^-i, by its series, to the nearest unit of 2^-32 turns |
| `Cordic.ResidualAngle` | fpga/rtl/dsp/cordic_sincos.v:85-105 | For every phase the angle left after 16 rotations is at most 0x517d in magnitude, with no wrap of the 32-bit register at any stage |
| `Cordic.LengthIsGain` | fpga/rtl/dsp/cordic_sincos.v:96-104 | Whatever the directions, the exact rotations bring the vector to the same length |
| `Cordic.VectorTracks` | fpga/rtl/dsp/cordic_sincos.v:96-104 | The 20-bit X and Y registers never wrap and follow the exact vector to within the rounding bound at every stage |
| `Cordic.OutputIsAccurate` | fpga/rtl/dsp/cordic_sincos.v:107-129 | For every phase both outputs, quadrant mapping and saturation included, are within 17 of the exact vector |
| `Cordic.VectorOfPhase` | fpga/rtl/dsp/cordic_sincos.v:107-129 | That holds whether the phase is marked valid or not |
| `Cordic.OutputsFit` | fpga/rtl/dsp/cordic_sincos.v:107-129 | Both outputs fit 16 bits after every edge, whatever the pipeline held |
| `Cordic.OutputLength` | fpga/rtl/dsp/cordic_sincos.v:85-129 | That vector has the same length for every phase, between 32767 and 32768 |
| `Cordic.CordicSincos.Clock` | fpga/rtl/dsp/cordic_sincos.v:73-131 | One clock edge on the pipeline is the step function of the proofs |
| `Nco.PhaseIsMultiple` | fpga/rtl/dsp/nco.v:20-28 | At a fixed word the accumulator is the number of cycles with `enable` and `sample_valid` both high times the word, modulo 2^32 |
| `Nco.PhaseStands` | fpga/rtl/dsp/nco.v:20-28 | In a cycle with either of them low the phase does not move, and a reset returns it to zero |
| `Nco.OutputOfSample` | fpga/rtl/dsp/nco.v:20-42 | An output is valid exactly if 18 edges ago both were high, and is within 17 of the exact vector for the sample count before that cycle times the word |
| `Nco.NumericOscillator.Clock` | fpga/rtl/dsp/nco.v:20-42 | One clock edge of accumulator and pipeline is the step function of the proofs |

## Left out

- Reset of one side of the asynchronous FIFO in mid-run: runs start with both sides in reset, released in any order, and no side is reset after it was released.
- FIFO address widths below 2: the full test needs two top bits and the Verilog slice does not exist below that.
- A decimation rate that changes while the CIC runs: the rate is constant within a run.
- The mixer, the gain stage and the compensation filter: only the magnitude bound 2^17 of the mixer output is used.
- Alignment of samples with oscillator phases: the delay line and the CORDIC latency differ, and nothing is claimed about it.
- Cosine and sine as functions: the outputs are related to exact rotations in the chosen directions, and the angles to the arctangent's series, term by term.
- FRAME_SAMPLES of zero in the packetizer, for which its last-word comparison wraps: the parameter is at least one.
- Resets of the configuration crossing and of the bus slave in mid-run: the two blocks' reset branches are modelled, and runs start after them.
- ConfigSync.DataIsOneUpdate: an update at the copying edge is the only way modelled for the held word to change while it is captured; skew between the bits of one edge is not.
- ControlPath.BusWritesAreSpaced: the relation of the two clocks is an assumption, at least one sample-clock edge in any three bus cycles; `ControlPath.ReceiverConfigIsWhole` needs one in every bus cycle.
- Where status values come from: the status registers answer with inputs of the bus slave.
- Datagrams.DatagramUnpacksIff: says nothing of a header in which the magic number recurs at the very word where the packet before it was cut; `Datagrams.UnpacksIffWords` is exact there too.
- JSON text, socket, lwIP, timer and driver code: commands arrive as parsed optional fields, and what a foreign call answers (busy, transfer accepted, packet sent, sockets there, address readable, engine configured) is a parameter of the step.
- The engine is taken to be reset by a successful configuration call, and to hold no transfer when it answers not busy.
- Front-end settings, status reports and the ping command of the bridge.
- `set_rx` of the simulated device, which assigns fields before it checks the rate: atomicity is stated for the bridge only.
- PSD segments reordered across frames, or duplicated after their frame was complete: frames arrive in order, and no segment arrives after its frame is complete.
- PsdReassembly.PsdReassembler.PublishFrame: upper frequency and bin spacing are real numbers, without the rounding of floating point; the division by zero bins is an outcome of its own.
- PsdLink.PsdSender.SendPsdFrame: the bin spacing in the headers is the exact quotient, rounded; that the division before is one of floating point is not modelled.
- Aliasing of the statistics object that the backend returns and keeps: statistics are values.
- The web interface, demodulation, the waterfall, signal generation and the cosimulation server.
