# A verified model of the DC charging station firmware

This project models the parts of the firmware that decide when a DC charger may energise its output, and proves
what every run of them keeps. The program's own form is kept: its globals are the fields of classes, its buffers
are arrays changed in place, its loops are loops. Each class is tied, method by method, to a specification on
values (`Abs()` or `State()` of the new state equals a function of the old one), and the theorems are about runs of
that specification.

| part of the firmware | specification | as it runs | theorems |
|---|---|---|---|
| `src/tcp.cpp`, charging dialogue (DIN 70121, ISO 15118-2) | `hlc.dfy` | `tcp.dfy` | `hlc_safety.dfy`, `hlc_deadline.dfy`, `hlc_watch.dfy`, `hlc_phases.dfy`, `hlc_replies.dfy`, `hlc_contact.dfy`, `hlc_findings.dfy`, `hlc_targets.dfy`, `hlc_answers.dfy`, `hlc_runs.dfy` |
| `src/tcp.cpp`, receive buffer and V2GTP framing | `v2gtp.dfy` | `tcp.dfy` | `v2gtp.dfy` |
| `src/tcp.cpp`, sender and transport | `tcp_sender.dfy`, `tcp_link.dfy` | `tcp_sender.dfy`, `tcp.dfy` | `tcp_transport.dfy`, `tcp_handshake.dfy`, `tcp_clock.dfy`, `stop_and_wait.dfy` |
| `src/main.cpp`, SLAC matching (ISO 15118-3, Annex A) | `slac.dfy` | `slac_unit.dfy` | `slac_safety.dfy`, `slac_link.dfy`, `slac_recovery.dfy` |
| `src/main.cpp`, burst de-framing | `deframe.dfy` | `deframe.dfy` | `deframe.dfy`, `bursts.dfy` |
| `src/ipv6.cpp` and the TCP packers | `checksum.dfy`, `ipv6.dfy`, `frames.dfy` | the same | the same |
| `src/cp_control.cpp` | `cp_control.dfy`, `cp_burst.dfy` | the same | the same |
| `src/dc_can.cpp` | `dc_can.dfy` | the same | the same |
| `src/iso_watchdog.cpp` | `iso_watchdog.dfy` | the same | the same |

`dafny verify dfyconfig.toml` checks everything.

How the surroundings enter the model:

- Each handler or timer pass is one atomic step; the order of steps is arbitrary.
- The EXI decoder is an oracle that yields any document or a failure (and may leave any document behind); the
  encoder yields any bytes or a failure. Both are parameters of a step, as are the clock, the auxiliary contact,
  random bytes, modem registers and everything received.
- ISO20_ENABLE is 0. Voltages and currents are reals. 8-, 16- and 32-bit wrap-around is written out wherever the
  program can meet it.
- One step reads the clock once, except that frames handled within one call may each see their own clock where
  nothing about time is claimed.
- What the program sends, and what a reader of the protocol would look for, is kept in ghost logs; monitors over
  these logs give the history properties.

## What turned out different from what one would expect

Each is proved, with the exact condition under which it happens:

- Power safety and phase order hold in every run, but an ISO-2 session can be energised by a DIN document left over
  from an earlier session (`HlcFindings.IsoSwitchesOnExactly`, with a run in `HlcRuns.UnrequestedStartReachable`),
  and an ISO metering receipt can be answered twice (`HlcFindings.AnsweredTwiceExactly`).
- A handshake leaves an ISO session unwatched if and only if its last recognised schema is ISO and the encoder fails
  for every offered ISO schema and succeeds for a DIN one (`HlcDeadline.UnwatchedExactly`). Both answers are built alike (`src/tcp.cpp:506-523`), so
  this is conditional on an encoder that tells their schema ids apart; the energy deadline is stated for runs in which
  every offered ISO schema can be encoded.
- The retry count of the watchdog never accumulates (`HlcDeadline.FatalExactly`): with the default of three retries
  it never gives up, and an expiry leaves the connection established for good (`TcpTransport.ExpiryStrandsConnection`).
- A DIN PowerDelivery whose close is not confirmed leaves the coil energised (`HlcFindings.DinPowerContactor`), and a
  DIN session stop, fresh or left over, never releases it (`HlcFindings.StopLeavesCoilExactly`, with a run in
  `HlcRuns.EnergisedEndReachable`).
- Frames longer than 255 bytes are never delivered, although the buffer holds 1000 (`V2gtp.LongFramesNeverDelivered`,
  `V2gtp.WholeFrameDelivered`); a length field of 2^32 - 8 keeps the receive loop spinning (`V2gtp.SpinsExactly`) and
  a larger one hands over a piece of the header (`V2gtp.FragmentExactly`).
- A modem burst that continues with 74 or more bytes that are no header keeps the de-framing loop spinning, and a
  cut-off packet is handed over with its stated length (`Deframe.EndsExactly`). The header walk goes by that length and
  can leave the receive buffer (`Ipv6.LeavesBufferExactly`, with an input in `Bursts.CutOffLeavesBuffer`); complete
  packets never lead it there (`Bursts.PacketsStayInside`).
- Transport safety does not extend to socket data on a closed connection (`TcpTransport.SocketLeavesAtRestExactly`,
  with a run in `HlcRuns.SocketDataWhileClosed`), and stop-and-wait not to repeated requests
  (`StopAndWait.RepeatedRequestOverwrites`) nor to a wrap of the sequence number
  (`StopAndWait.OwnAckSparesAnswerExactly`).
- A SYN-ACK that is lost is never repeated, and the vehicle's repeated SYN is ignored: only a reset or a fitting
  acknowledgement ends that state (`TcpHandshake.LostAnswerStrands`).
- The sound count and the timeout of a SLAC_PARAM.REQ are read out of its run identifier (`src/main.cpp:526-532`), as
  its fifth and sixth byte (`SlacLink.NegotiatedExactly`). Two GET_SW answers make a link ready whichever modems they
  come from, and 256 count as none (`SlacLink.AskThenDecide`).
- Unplugging switches the output off but ends nothing: phase and charging flag stay, and a vehicle that comes back goes
  on in current demand without output (`HlcContact.PilotExactly`).
- A contact that stays closed is noticed only by the second command to open (`CpControl.DriveExactly`).
- A slowly creeping DC target is followed internally but never told to the modules
  (`DcCan.CreepToldExactlyAboveMargin`), and an emergency stop leaves them with the last setpoint they were told
  (`DcCan.EmergencyLeavesModulesTold`, `DcCan.EnabledOutputToldExactly`).
- TCP payloads above 126 bytes, which the sender accepts up to 179, make the packers leave their buffers
  (`Frames.Packer.SendSegment`).
- A UDP checksum of zero is sent as it is (`Frames.SdpChecksumCanBeZero`), where section 8.1 of RFC 8200 asks for 0xFFFF.

## Model

| member | source | states |
|---|---|---|
| HlcSafety.PowerSafety | src/tcp.cpp:373-415 | in every run of packets, socket data, ticks, transport events, pilot checks and ramp ticks, DC output on implies charging active, the current-demand phase and a contactor commanded closed; an output that is off has both setpoints at zero; a pilot check without a vehicle leaves output and contactor off |
| HlcSafety.PhaseOrder | src/tcp.cpp:760-1461 | in every run, each step that switches the DC output on has behind it, in the same session, positive answers to SessionSetup, ServiceDiscovery, payment selection and authorization in this order, then the latest ChargeParameterDiscovery, a CableCheck and a PreCharge, whether it comes from PowerDelivery, renegotiation, a late PowerDelivery or a left-over DIN document |
| HlcSafety.ProgressMeans | src/tcp.cpp:760-1461 | the stage counter used by the invariant stands for the positions of exactly those answers in the log |
| HlcSafety.RunGood | src/tcp.cpp:554-1461 | the strengthened invariant (power, phase order, sender) holds after every event from power-up, the watchdog's retry count is always zero, and an ISO-2 session past the handshake is watched as long as every offered ISO schema can be answered |
| HlcSafety.StepGood | src/tcp.cpp:646-680 | any single event keeps the invariant from any state that satisfies it, reachable or not |
| HlcSafety.PilotFine | src/main.cpp:659-664 | the pilot check keeps the invariant although it opens the contactor before it switches the output off |
| HlcDeadline.EnergyDeadline | src/tcp.cpp:646-680 | at the end of every tick an ISO-2 session past the handshake, and any ISO-2 session with DC output on, is at most the timeout past its last recorded watchdog start, on an unbounded clock of which the program sees 32 bits |
| HlcDeadline.DeadlineKept | src/iso_watchdog.cpp:18-43 | between ticks: the watchdog's start register is the wrapped time of the last recorded start, and the last tick was not past the deadline |
| HlcDeadline.FatalExactly | src/tcp.cpp:671-679 | in every run a check gives up (Fatal) if and only if the watchdog has expired and is configured for one retry, because each expiry resets the session and with it the retry count |
| HlcDeadline.ExpiryClosesExactly | src/tcp.cpp:669-679 | an expiry always ends the session with output off and contactor released; it closes the connection if and only if one retry is configured (or it was closed already) |
| HlcDeadline.HandshakeOutcome | src/tcp.cpp:760-799 | over any list of offered schemas without a break: the last recognised schema names the protocol, the session opens exactly when some schema could be answered, and the watchdog starts exactly when an ISO schema could be |
| HlcDeadline.UnwatchedExactly | src/tcp.cpp:772-796 | a handshake leaves an ISO session without a watchdog if and only if the last recognised schema is ISO, no ISO schema could be encoded and a DIN schema could |
| HlcFindings.IsoSwitchesOnExactly | src/tcp.cpp:1211-1461 | in an ISO session a frame switches the output on if and only if it is a PowerDelivery Start in a phase that acts on it, or the ISO branch has no final answer to it and the left-over DIN document asks to start; both only with a confirmed contactor |
| HlcFindings.AnsweredTwiceExactly | src/tcp.cpp:1329-1331 | a frame past the handshake is answered at most twice; twice if and only if an ISO metering receipt meets a left-over DIN document the phase answers too; not at all if and only if neither branch has an answer |
| HlcRuns.UnrequestedStartReachable | src/tcp.cpp:1190-1240 | a run from power-up over two client connections, opened and closed as the socket server does, in which an ISO CurrentDemand, sent while PowerDelivery is awaited, switches the output on through a DIN document of the first connection |
| HlcRuns.EnergisedEndReachable | src/tcp.cpp:1242-1270 | a run from power-up with a vehicle plugged in and a contact that never confirms: DIN start, refusal, SessionStop; the session is over and the coil still energised |
| HlcRuns.SocketDataWhileClosed | src/tcp.cpp:619-622 | a run from power-up: a client connects, five silent seconds let the tick close the connection, and the next frame on the same socket starts a dialogue behind it |
| TcpTransport.SocketLeavesAtRestExactly | src/tcp.cpp:569-622 | socket data of at most one frame leaves a closed, resting connection at rest if and only if it is rejected, or leaves no bytes over and carries no handshake that is answered |
| HlcFindings.DinPowerContactor | src/tcp.cpp:1242-1270 | after a DIN PowerDelivery the coil is energised if and only if the vehicle was ready, confirmed or not; the phase moves on if and only if the close was confirmed; otherwise output and charging are off |
| HlcFindings.StopLeavesCoilExactly | src/tcp.cpp:1401-1461 | a frame that ends a session from the phase waiting for its end leaves the contactor commanded closed if and only if it was and the frame is not an ISO SessionStop the ISO branch answers; a DIN SessionStop never opens it, also when it is left over and ends an ISO session |
| HlcAnswers.AnsweredOnce | src/tcp.cpp:737-1464 | past the handshake, a frame that is neither answered twice nor the refusal of a payment option hands the sender exactly its one encoded answer, or nothing if it has none |
| HlcTargets.TargetsExactly | src/tcp.cpp:1292-1380 | a frame sets the targets if and only if it is, or falls through to, a CurrentDemand that is acted on; they become the requested values with negative ones cut to zero and the output is not switched; every other frame keeps the targets or leaves an output that is off with both at zero |
| TcpTransport.ClosedMeansAtRest | src/tcp.cpp:1599-1702 | in every run whose socket data arrives on an established connection only, a connection that is not established has no dialogue, no charging, an empty receive buffer and nothing awaiting acknowledgement |
| TcpTransport.AtMostFourTimes | src/tcp.cpp:634-668 | in every run, between two first transmissions at most three retransmissions occur, each with the bytes of the first |
| TcpTransport.TickExactly | src/tcp.cpp:646-680 | a tick closes an established connection if and only if the retransmission limit, the idle limit or a Fatal watchdog is met; it ends the session on any of these or any expiry; otherwise it changes nothing but the one due retransmission |
| TcpTransport.SilenceEndsPending | src/tcp.cpp:646-668 | after a payload sent at s and then silence, the session is over at the first tick later than s + 4000 + 3d ms, the connection closed too when the watchdog is stopped or gives up at once |
| TcpTransport.SilenceEndsIdle | src/tcp.cpp:662-667 | an established connection last active at b is over at the first tick later than b + 5000 ms, under the same condition on the watchdog |
| TcpTransport.ExpiryStrandsConnection | src/tcp.cpp:669-674 | when a watchdog that does not give up expires first, the session ends but the connection stays established through any further silence |
| StopAndWait.DeliveredOnceInOrder | src/tcp.cpp:634-703 | against a cumulative-ACK peer over two lossy order-keeping queues, what the peer has received is in every run exactly what was sent, once each and in order, short at most of the pending payload |
| StopAndWait.RetransmissionsRepeat | src/tcp.cpp:682-703 | in every such run a pending payload has expected ACK = sequence number + length, and every retransmission repeats sequence number and bytes of the first transmission |
| StopAndWait.ClearedOnlyWhenReceived | src/tcp.cpp:1682-1692 | in every such run an ACK clears the pending payload if and only if it reaches the expected number, and then the peer has it; an answered request leaves its answer pending |
| StopAndWait.OwnAckSparesAnswerExactly | src/tcp.cpp:1671-1692 | a request's own ACK number leaves the answer it triggered pending if and only if ACK number + answer length stays below 2^32 |
| StopAndWait.RepeatedRequestOverwrites | src/tcp.cpp:1671-1692 | a repeated request is answered at the same sequence number and the first answer is forgotten: why requests must not be duplicated |
| StopAndWait.SegmentIsReceived | src/tcp.cpp:1664-1693 | on the raw path past the handshake, the receiver treats a data segment with ACK that completes at most one frame exactly as the network model does, for every frame except one answered twice and the refusal of a payment option |
| V2gtp.ReassemblyRefinesFrameList | src/tcp.cpp:569-617 | any list of valid frames, cut into chunks anywhere and cut off anywhere, is handed over as exactly its complete frames in order, the buffer holding exactly the started part of the next, as long as buffered + chunk stays within 255 |
| V2gtp.ChunkingIrrelevant | src/tcp.cpp:569-617 | for any byte stream that stays well formed, feeding it in chunks gives the frames and rest of feeding it whole |
| V2gtp.DeframeAppend | src/tcp.cpp:581-617 | reassembly of b ++ c is reassembly of b followed by reassembly of its rest ++ c |
| V2gtp.DeframeConserves | src/tcp.cpp:581-617 | frames and rest together are the stream, byte for byte, and the rest contains no further complete frame |
| V2gtp.SpinsExactly | src/tcp.cpp:588-616 | the loop spins for ever if and only if the buffered bytes are complete valid frames followed by 01 FE 80 01 FF FF FF F8 |
| V2gtp.RejectedExactly | src/tcp.cpp:588-607 | received bytes are rejected if and only if they are complete valid frames followed by a wrong version, a declared length above 1000, a complete message of another type, or a header whose length wraps to one to seven with eight more bytes behind that piece |
| V2gtp.FragmentExactly | src/tcp.cpp:592-615 | one to seven bytes of a header are handed over as a frame if and only if its length field exceeds 2^32 - 8; nothing else is handed over with them and the loop ends |
| V2gtp.WholeFrameDelivered | src/tcp.cpp:75-76 | a frame arriving whole in an empty buffer is handed over if and only if it is at most 255 bytes long, because the length counter has 8 bits |
| V2gtp.LongFramesNeverDelivered | src/tcp.cpp:578-579 | whatever arrives in whatever pieces, no frame longer than 255 bytes is ever handed over |
| V2gtp.FrameIsTaken | src/tcp.cpp:706-725 | a frame the station builds, followed by anything, is recovered as exactly that frame |
| SlacSafety.LinkSoundness | src/main.cpp:503-643 | in every run, behind a finished match (GET_SW request, wait, link ready) the log since the latest SLAC_PARAM.REQ holds in order a start of sounding, a report, and a response and MATCH.REQ with that request's MAC and run id; the key and network id answered then are still current; the network id's top two bits are always zero; while modems are looked for, the GET_SW request follows that MATCH.REQ and the counter holds the answers to it modulo 256; a link that is ready has had at least two |
| SlacSafety.Counters | src/main.cpp:428-438 | in every run: while sounding no report is out and the retry counter is 0; while waiting for a response the counter equals the reports sent, 1 to 3; accepted profiles never exceed the negotiated count of at most 20 |
| SlacSafety.ReportedMeans | src/main.cpp:262-267 | in every run each group byte of each report of the round is the exact floored mean over the profiles accepted since sounding started, without truncation; zero without profiles |
| SlacSafety.MeanWithinRange | src/main.cpp:262-267 | that mean lies between the group's smallest and largest value |
| SlacSafety.ReportsIdentical | src/main.cpp:399-438 | in every run all reports of one sounding round are byte for byte identical |
| SlacSafety.AcceptSums | src/main.cpp:586-598 | adding a profile keeps every 16-bit accumulator equal to the exact sum of the accepted profiles: no wrap-around |
| SlacSafety.TickOk | src/main.cpp:652-797 | one pass of the timer keeps the matching invariant, any burst of messages included |
| SlacRecovery.SoundingRecovers | src/main.cpp:754-797 | after any run that ends in sounding, wherever in the round the vehicle falls silent, with an unchanged pilot and ticks at most d ms apart, a new key is asked for within sound window + 1500 + 4d ms of the start of sounding, after exactly three reports |
| SlacRecovery.ReportingRecovers | src/main.cpp:763-769 | after any run that ends with report c out, a new key is asked for within (4 - c)(500 + d) ms of that report, after exactly three reports |
| SlacRecovery.PassNotLate | src/main.cpp:754-782 | whatever a pass of the timer handled, it does not leave a timer running that is already over |
| SlacRecovery.MatchRecovers | src/main.cpp:771-797 | after any run that ends in waiting for MATCH.REQ, a new key is asked for within match window + d ms of the accepted response |
| SlacRecovery.LateTimers | src/main.cpp:754-797 | a tick past the running timer's end sends the next report while one is left and otherwise gives up and rearms in the same pass |
| Deframe.DeframingInvertsPacking | src/main.cpp:713-750 | from any burst of valid packets and any tail the payloads are handed over one by one, in order and completely; a tail of at least 74 bytes without a header keeps the loop spinning, a cut-off packet is handed over with its stated length, anything shorter is dropped |
| Deframe.EveryBurstSplits | src/main.cpp:713-750 | every byte string is such a burst and such a tail |
| Deframe.EndsExactly | src/main.cpp:713-750 | for every burst of at least 74 bytes the loop ends if and only if what follows its last complete packet is shorter than 74 bytes or starts with a header |
| Bursts.PacketsStayInside | src/main.cpp:713-739 | the messages of a burst of complete packets never lead the header walk out of the receive buffer |
| Bursts.CutOffLeavesBuffer | src/main.cpp:713-739 | a burst of 74 bytes that states 65535 is handed over as such, and two hop-by-hop headers then lead the walk out of the 3164-byte buffer |
| Deframe.RestOfBurst | src/main.cpp:721-738 | after both moves the buffer carries the rest of the burst except its last two bytes, the two the first move leaves behind |
| Checksum.FoldIsResidue | src/ipv6.cpp:135-140 | folding computes the residue modulo 65535 that is zero for zero only |
| Checksum.ResidueAdd | src/ipv6.cpp:142-171 | folding early changes nothing |
| Checksum.Calculate | src/ipv6.cpp:142-171 | folding after every word gives the complement of the residue of the total taken once |
| Checksum.OddIsPadded | src/ipv6.cpp:164-167 | an odd last byte counts as if a zero byte followed |
| Checksum.FilledSumsToZero | src/ipv6.cpp:251-258 | a frame whose zeroed even-offset checksum field is filled with the result sums up to zero |
| Checksum.ChangeNoticedExactly | src/ipv6.cpp:142-171 | replacing one word keeps the checksum if and only if the word is unchanged or goes between 0x0000 and 0xFFFF |
| Checksum.ZeroExactly | src/ipv6.cpp:142-171 | the checksum is zero if and only if the covered sum is a positive multiple of 65535 |
| Checksum.ZeroReachable | src/ipv6.cpp:142-171 | for any frame and any of its words there is a value of that word that makes the checksum zero |
| Checksum.FoldChecksum | src/ipv6.cpp:135-140 | the loop ends with the residue of its argument |
| Ipv6.ParseInvertsEncoding | src/ipv6.cpp:81-116 | for any chain of hop-by-hop, routing, destination-options and mobility headers in a frame that fits, exactly the upper-layer protocol and the payload are found |
| Ipv6.ComputePayloadMetadata | src/ipv6.cpp:81-116 | for every declared length up to 65535 the walk over the 3164-byte buffer terminates and equals its specification; on success offset + length = 54 + declared payload length <= frame length; it leaves the buffer only when the declared payload does |
| Ipv6.LeavesBufferExactly | src/ipv6.cpp:81-106 | the walk reads behind the buffer if and only if the declared payload fits the declared length and the header bytes form a chain of extension headers leading to a further one that starts before the declared end and not within the buffer |
| Ipv6.FittingStaysInside | src/ipv6.cpp:81-106 | it never does when the declared length or the declared payload fits the buffer |
| Ipv6.WalkBounds | src/ipv6.cpp:91-106 | what is found starts a multiple of eight bytes on, ends where the payload ends and is no extension header |
| Frames.TcpFrameParsesBack | src/tcp.cpp:1467-1579 | every TCP frame that fits the receive buffer, whatever lies behind it there, is read back by the program's own receivers with the same ports, numbers, flags and payload, and its checksum verifies |
| Frames.WireEntryParsesBack | src/tcp.cpp:1582-1597 | in every run, every entry of the sender's wire log, handshake answer, acknowledgement, first transmission or retransmission, framed and received, is a segment with its numbers, flags and payload |
| Frames.SdpFrameParsesBack | src/ipv6.cpp:173-287 | every SDP answer is read back likewise: ports, the 28 payload bytes, the server address and port in it, a verifying checksum |
| Frames.SdpChecksumCanBeZero | src/ipv6.cpp:255-258 | for every address and answer there is a vehicle port for which the UDP checksum is sent as zero |
| Frames.EnvelopeOpens | src/ipv6.cpp:195-226 | a transport unit in IPv6 in Ethernet is found whole by the header walk, with addresses in place |
| CpControl.LeavesBExactly | src/cp_control.cpp:182-195 | the pilot state drops from B towards C..F if and only if the last 18 bursts have peaks below the B threshold and every plateau of the 24-burst window is below it |
| CpControl.DemotionNeedsLowSpell | src/cp_control.cpp:182-195 | between a B and a later demoted state, with no A between, some burst completed such a low spell |
| CpControl.MaxFromIsMax | src/cp_control.cpp:82-91 | the specification maximum bounds the window and is one of its plateaus |
| CpControl.BelowRunMeans | src/cp_control.cpp:183-184 | the run counter reaches n if and only if the last n bursts are all low |
| CpControl.DriveMeaning | src/cp_control.cpp:217-230 | a close command leaves the coil energised confirmed or not, is always confirmed without an auxiliary contact, and an open command releases the coil |
| CpBurst.ReadBurst | src/cp_control.cpp:102-157 | for any samples and any K the burst reading yields minimum, maximum, truncated mean, and the truncated mean of the max(3, K/6) largest of the K largest samples (the largest for at most four) |
| CpBurst.TopAndRest | src/cp_control.cpp:109-127 | what is kept and what was let go are together the samples, as a multiset |
| CpBurst.TopIsLargest | src/cp_control.cpp:109-127 | what is kept is sorted and nothing let go exceeds it: the K largest samples |
| CpBurst.ResultsOrdered | src/cp_control.cpp:140-156 | for non-negative samples minimum <= mean <= plateau <= peak |
| CpBurst.InsertTopK | src/cp_control.cpp:109-127 | the in-place insertion is the sorted insertion below capacity and the replacement of the smallest at capacity |
| CpBurst.PlateauOf | src/cp_control.cpp:140-151 | the plateau computed from the array is that of its contents |
| DcCan.DisabledMeansZero | src/dc_can.cpp:232-257 | in every reachable state a disabled output has both setpoints zero, targets and setpoints are never negative, and without a CAN controller the output is never enabled |
| DcCan.StepBound | src/dc_can.cpp:158-184 | in any run one event moves a setpoint at most 5 V / 2 A towards its goal and not past it, or switches off to zero |
| DcCan.ReachesTargetExactly | src/dc_can.cpp:158-184 | at any clock readings, with a constant target, the setpoint equals it if and only if as many ticks were due as steps cover the distance |
| DcCan.RateBound | src/dc_can.cpp:158-184 | in any run, on the unbounded clock, the setpoints rise between two moments by at most one step of 5 V and 2 A per whole 100 ms between them, plus one: 50 V/s and 20 A/s |
| DcCan.RampsAreRuns | src/dc_can.cpp:158-184 | sequences of ramp ticks are the runs of ramp events, the 100 ms guard included |
| DcCan.EnabledOutputToldExactly | src/dc_can.cpp:181-183 | enabling any disabled output, setting targets once and ramping long enough leaves the modules told them within 0.5 V / 0.5 A if and only if one target exceeds the margin or the last command was already that close |
| DcCan.EnabledOutputIsTold | src/dc_can.cpp:181-183 | in every run without an emergency stop that is always so |
| DcCan.NoEmergencyToldOff | src/dc_can.cpp:232-246 | in every run without an emergency stop the modules of a disabled output were last told zero |
| DcCan.EmergencyLeavesModulesTold | src/dc_can.cpp:277-285 | a run in which an emergency stop leaves the modules told 5 V, and a later target of 0.4 V is never told to them |
| DcCan.CreepToldExactlyAboveMargin | src/dc_can.cpp:181-183 | a target that creeps ahead step by step is told to the modules if and only if each step exceeds the resend margin; below it the bus stays silent however far the setpoint travels |
| IsoWatchdog.ExpiredExact | src/iso_watchdog.cpp:31-36 | the wrapped signed comparison equals expiry on the unbounded clock while the overshoot is below 2^31, and its exact periodic meaning beyond |
| IsoWatchdog.ExpiredCanMiss | src/iso_watchdog.cpp:34-36 | a deadline can be missed by a check that comes 2^31 ms late |
| TcpSender.RetrySound | src/tcp.cpp:634-661 | a timer-driven retransmission keeps the sender's invariant and repeats the pending bytes |
| TcpSender.SendFrame | src/tcp.cpp:706-734 | sending keeps the sender's invariant and changes neither connection state nor numbers |
| HlcPhases.IsoPowerLeadsExactly | src/tcp.cpp:394-415 | an ISO PowerDelivery that is acted on leads to current demand if and only if it asks to start and the contactor is confirmed, to the wait for the session's end if and only if it asks to stop or the contactor is not confirmed, and back to ChargeParameterDiscovery if and only if it renegotiates; save for that start, output and charging are off and the contactor is released |
| HlcPhases.StopThenSessionStop | src/tcp.cpp:1401-1416 | two frames: an ISO PowerDelivery Stop and then SessionStop end the session with everything off, from every phase that acts on the first |
| HlcPhases.RenegotiateThenParameters | src/tcp.cpp:1069-1108 | two frames: after an ISO renegotiation the vehicle's ChargeParameterDiscovery is answered and CableCheck is awaited next |
| HlcPhases.AuthorizedExactly | src/tcp.cpp:950-1050 | two frames: authorization right after the selection of a payment option succeeds if and only if the option is external payment; with a contract it is answered as a sequence error and changes nothing |
| HlcPhases.DetailsThenAuthorized | src/tcp.cpp:999-1050 | with payment details in between, authorization succeeds for a contract too |
| HlcPhases.ChargingCompleteExactly | src/tcp.cpp:1343-1380 | a DIN CurrentDemand, fresh or left over, ends charging, switches the output off and opens the contactor if and only if it says the charge is complete |
| HlcPhases.LatePowerExactly | src/tcp.cpp:1449-1461 | a DIN PowerDelivery met while the session's end is awaited moves to current demand if and only if the vehicle is ready, and touches neither contactor nor output |
| HlcPhases.UndecodedHasNoEffect | src/tcp.cpp:737-765 | a frame that cannot be decoded, or an offer that is no request, changes at most the document of the decoder that ran |
| HlcContact.ContactExactly | src/tcp.cpp:265-276 | a frame that does not command the contactor re-reads its auxiliary contact if and only if its answer reports a status while a vehicle is connected, or it is a DIN metering receipt, which reads it in any case |
| HlcContact.PowerReads | src/tcp.cpp:394-415 | after an ISO PowerDelivery that is acted on, a connected vehicle's contact is read once more; without one it is remembered closed if and only if a start was confirmed, or an open contactor's contact read closed before and after |
| HlcContact.DemandCharges | src/tcp.cpp:1292-1300 | an ISO CurrentDemand that is acted on sets the charging flag and keeps the phase |
| HlcContact.PilotExactly | src/main.cpp:659-664 | the pilot check of a connected vehicle changes nothing; without one it opens the contactor and zeroes the output, and the session, charging flag included, goes on where it was |
| HlcContact.DinPowerReads | src/tcp.cpp:1242-1270 | after a DIN PowerDelivery the contact is read once more if and only if PowerDelivery was awaited and a vehicle is connected; otherwise it is remembered as the command left it |
| HlcReplies.RepliesExactly | src/tcp.cpp:800-1461 | past the handshake every frame gets exactly the listed answers, to the listed request and in that order, and each is positive unless it is one of four refusals: an unsupported ISO payment option, ISO authorization before the details of a contract, an ISO or a DIN start whose contactor is not confirmed |
| HlcWatch.ArmsExactly | src/tcp.cpp:800-1461 | past the handshake a frame puts exactly one watchdog start on record for exactly the listed requests (the phase's own, answered positively; not payment details, metering, PowerDelivery once charging has begun, nor anything after) and none otherwise; the watchdog then runs from that frame, for the phase that follows |
| HlcWatch.HandshakeTally | src/tcp.cpp:760-799 | an offer is answered once for each schema the station knows and starts the watchdog once for each ISO schema that could be answered |
| HlcWatch.ExpiresExactly | src/iso_watchdog.cpp:31-36 | in every run the next tick finds the watchdog expired if and only if it runs and its last recorded start lies more than the timeout back on the unbounded clock |
| HlcWatch.ChargingKept | src/tcp.cpp:1292-1328 | from any state of any run in which an ISO session charges: as long as the vehicle stays connected and sends CurrentDemands, on either path and in any chunks, and each tick comes at most the timeout after the last of them and meets no other limit, no tick finds the watchdog expired, and phase, output, contactor and connection stay |
| TcpHandshake.ConnectionAnswers | src/tcp.cpp:1645-1660 | in every run the SYN-ACKs on the wire are exactly, and in order, one for each SYN to port 15118 that met a closed connection, numbered 0x01020304 and acknowledging that SYN's number + 1 modulo 2^32; and a connection that is not established has nothing pending |
| TcpHandshake.HandshakeOpens | src/tcp.cpp:1645-1663 | after any run that ends closed, a SYN numbered q and an acknowledgement put exactly one SYN-ACK with numbers (0x01020304, q + 1) on the wire; the connection is established if and only if the acknowledgement's number is 0x01020305, else it stays in SYN_ACK; sender and peer then stand where the runs of `StopAndWait` begin |
| TcpHandshake.TransportExactly | src/tcp.cpp:1600-1702 | a segment opens, confirms or ends the connection each if and only if its condition holds, and otherwise leaves it; one SYN-ACK is sent exactly when it opens |
| TcpHandshake.AcknowledgedExactly | src/tcp.cpp:1671-1702 | data on an established connection is acknowledged before anything else, up to its end; a FIN is acknowledged last, one number further; the numbers of the next segment are those this one sets, whatever is answered meanwhile |
| TcpHandshake.LostAnswerStrands | src/tcp.cpp:1645-1663 | a lost SYN-ACK is never repeated: while a connection is being opened it neither times out nor answers repeated SYNs, for any number of ticks and SYNs |
| TcpClock.TickInTrueTime | src/tcp.cpp:646-680 | in every run, on the unbounded clock, the next tick of an open connection closes it if and only if nothing was heard for more than 5000 ms, or a payload sent more than 1000 ms ago has gone out again three times, or an expired watchdog gives up at once; the session ends with these and with any expiry; otherwise a payload sent more than 1000 ms ago goes out again and nothing else changes |
| TcpClock.ActivityKept | src/tcp.cpp:1624-1658 | in every run the activity register is the wrapped time of the last segment for port 15118, socket data or socket connection of the present session, and zero if there was none since the last reset |
| TcpClock.PendingKept | src/tcp.cpp:634-703 | in every run a pending payload's timer is the wrapped time of the last event that sent a payload, and was not overdue at the last tick |
| TcpTransport.BufferedExactly | src/tcp.cpp:569-617 | received bytes end the session if and only if reassembly rejects them; else exactly what it left over stays buffered |
| TcpTransport.OversizeEnds | src/tcp.cpp:1664-1670 | a segment of 1000 bytes or more ends the session, unacknowledged, and leaves the connection established |
| SlacLink.AskThenDecide | src/main.cpp:702-792 | from any state that is to look for modems, through any passes without a lost vehicle, a new request or a new key: the station waits up to 1000 ms after its request, and the first later pass declares the link ready if and only if the answers since, modulo 256, are two or more, else it asks again |
| SlacLink.ResponseExactly | src/main.cpp:600-616 | in every run a response to the report is accepted if and only if it names the vehicle and run of the latest request and its status byte is zero; otherwise the same report goes out again while fewer than three are out, and else the match starts over |
| SlacLink.MatchExactly | src/main.cpp:618-631 | in every run an awaited MATCH.REQ is answered with the current key if and only if it names that vehicle and run and gives its length as 62; otherwise the match starts over |
| SlacLink.NegotiatedExactly | src/main.cpp:521-581 | request and start message, met in any state, open a round with the agreed count (1 to 20), a sound window of 100 ms per agreed unit but at least 200, and a match window 1000 ms longer but at least 2000 |
| SlacLink.ReportsAddressed | src/main.cpp:399-425 | in every run each report of the round goes to the vehicle of the latest request, comes from the station, and carries that vehicle, its run, 58 groups, and the number of sounds heard in the round (of profiles, if none was), at most the agreed count |
| SlacLink.MatchSucceeds | src/main.cpp:503-631 | from every state, a vehicle that sends request, start, the agreed number of profiles, response and MATCH.REQ as it should gets exactly one report, the group means of its profiles, and the current key, and the station goes on to look for modems |
| SlacLink.KeySetExactly | src/main.cpp:694-700 | a key drawn in one pass is set if and only if the modem's answer in the next says so; the station then waits for a vehicle |
| SlacLink.LostVehicleRekeys | src/main.cpp:665-670 | a lost vehicle ends any match: the same pass is to set a new key, the next sets the random bytes drawn, their head without its two top bits the network id |
| SlacLink.PowersUpExactly | src/main.cpp:677-692 | the modem's signature, then its full write space are each awaited, then a key is drawn |
| SlacRecovery.EarlyTimers | src/main.cpp:754-797 | a tick that is not past the running timer's end changes nothing |
| SlacUnit.Matcher.TakeGetSw | src/main.cpp:633-643 | in place: each answer is counted in eight bits, and the last modem that is not the station's own is remembered |
| CpControl.StateExactly | src/cp_control.cpp:93-100 | after any history: A if and only if a plateau of the last 24 reaches 2440 mV; B if and only if their maximum lies in 2080..2439, or B is held: it was B before, all 24 are below 2080 and fewer than 18 bursts in a row were low; otherwise C, D, E, F for a maximum in 1700..2079, 1320..1699, 940..1319 and below |
| CpControl.ConnectedExactly | src/cp_control.cpp:213-215 | after any history a vehicle counts as connected if and only if B is held, or the 24 plateaus stay below 2440 mV and one reaches 1320 mV |
| CpControl.DriveExactly | src/cp_control.cpp:217-230 | closing is confirmed if and only if the contact reads closed after the coil was driven (before, if it was driven already and reads as remembered), and always without a contact; after opening, the contact is reported closed if and only if the coil was released already and a contact remembered closed still reads so |
| Tcp.Station.constructor | src/tcp.cpp:70-250 | power-up is the specification's boot state |
| Tcp.Station.StopEvsePowerOutput | src/tcp.cpp:373-378 | in place: charging off, targets zero, output off, contactor opened; nothing else changed |
| Tcp.Station.ResetHlcSession | src/tcp.cpp:554-567 | in place: the whole reset, nothing else changed |
| Tcp.Station.IsoProcessPowerDelivery | src/tcp.cpp:394-415 | in place: contactor, output and next phase equal the specification, which `HlcPhases.IsoPowerLeadsExactly` pins |
| Tcp.Station.DinProcessPowerDelivery | src/tcp.cpp:1242-1258 | in place: the DIN variant, which leaves the coil commanded on a failed close |
| Tcp.Station.SendAnswer | src/tcp.cpp:440-523 | in place: an answer goes out when it could be encoded |
| Tcp.Station.ReadStatus | src/tcp.cpp:265-276 | in place: a status code re-reads the contact of a connected vehicle only |
| Tcp.Station.WatchdogStartState | src/tcp.cpp:242-246 | in place: only ISO-2 sessions start the watchdog |
| Tcp.Station.AwaitAppProtocol | src/tcp.cpp:760-799 | in place: the schema loop without a break |
| Tcp.Station.AwaitSessionSetup | src/tcp.cpp:800-872 | in place: ISO branch, then fall-through to the DIN branch |
| Tcp.Station.AwaitServiceDiscovery | src/tcp.cpp:874-948 | in place: ISO branch, then fall-through to the DIN branch |
| Tcp.Station.AwaitPaymentSelection | src/tcp.cpp:950-998 | in place: an unsupported ISO payment is refused and resets the session |
| Tcp.Station.AwaitAuthorization | src/tcp.cpp:999-1067 | in place: authorization before payment details is a sequence error that stays in the phase |
| Tcp.Station.AwaitChargeParameter | src/tcp.cpp:1069-1155 | in place: ISO branch, then fall-through to the DIN branch |
| Tcp.Station.AwaitCableCheck | src/tcp.cpp:1157-1186 | in place: ISO branch, then fall-through to the DIN branch |
| Tcp.Station.AwaitPreCharge | src/tcp.cpp:1188-1209 | in place: ISO branch, then fall-through to the DIN branch |
| Tcp.Station.AwaitPowerDelivery | src/tcp.cpp:1211-1270 | in place: ISO power handling, or a repeated DIN PreCharge, or DIN power handling |
| Tcp.Station.AwaitCurrentDemand | src/tcp.cpp:1272-1399 | in place: ISO power, demand, metering that falls through, then the DIN branch, as specified; `HlcWatch.ArmsExactly` and `HlcTargets.TargetsExactly` pin what a demand does |
| Tcp.Station.AwaitSessionStop | src/tcp.cpp:1401-1461 | in place: ISO metering that falls through, stop, late power, then the DIN branch |
| Tcp.Station.DecodeV2GTP | src/tcp.cpp:737-1464 | in place: decoding, the consumed mark and the phase's handling of one frame equal the specification |
| Tcp.Station.BufferIncoming | src/tcp.cpp:569-617 | in place: the buffered bytes are reassembled and handled as specified, the rest shifted to the front; reports exactly the inputs on which the loop never ends |
| Tcp.Station.ConsumeFrame | src/tcp.cpp:609-615 | in place: one frame is handled and the bytes behind it moved to the front |
| Tcp.Station.EvaluateTcpPacket | src/tcp.cpp:1599-1702 | in place: one inbound segment, its data handled before its ACK, as specified; `TcpHandshake.TransportExactly` and `TcpHandshake.ConnectionAnswers` pin states and numbers |
| Tcp.Station.Tick | src/tcp.cpp:646-680 | in place: retransmission, idle and watchdog stages in this order |
| Tcp.Station.ResetTransport | src/tcp.cpp:624-627 | in place: session reset, then closed |
| Tcp.Station.ConnectTransport | src/tcp.cpp:629-632 | in place: established without a handshake |
| Tcp.Station.ProcessSocketPayload | src/tcp.cpp:619-622 | in place: socket data goes to the same reassembly whatever the connection state |
| Tcp.Station.PilotCheck | src/main.cpp:659-664 | in place: pilot burst, then contactor and output without a vehicle |
| TcpSender.SenderUnit.TransmitPayload | src/tcp.cpp:682-703 | in place: new data is sent once and remembered as pending |
| TcpSender.SenderUnit.AddHeaderAndTransmit | src/tcp.cpp:706-734 | in place: the payload buffer holds exactly the V2GTP frame that is sent |
| TcpSender.SenderUnit.RetransmitPending | src/tcp.cpp:634-644 | in place: the remembered bytes go out again |
| TcpSender.SenderUnit.TakeAck | src/tcp.cpp:1682-1692 | in place: an ACK sets the sequence number and clears what it covers |
| TcpSender.SenderUnit.AnswerSyn | src/tcp.cpp:1651-1659 | in place: a connection request sets port and numbers and is answered |
| TcpSender.SenderUnit.AcknowledgeUpTo | src/tcp.cpp:1671-1674 | in place: the numbers of the next segment, and an acknowledgement that carries them |
| SlacUnit.Matcher.SlacManager | src/main.cpp:503-643 | in place: one management message |
| SlacUnit.Matcher.Timer20ms | src/main.cpp:652-797 | in place: one pass of the timer, matching part, equals the specification; `SlacLink.AskThenDecide` pins its last stage, `SlacRecovery` the others |
| SlacUnit.Matcher.ComposeAttenCharInd | src/main.cpp:399-425 | in place: the transmit buffer holds the 130 specified bytes |
| SlacUnit.Matcher.TransmitAttenCharInd | src/main.cpp:428-438 | in place: report sent, response timer started, counter raised |
| SlacUnit.Matcher.ComposeSlacMatchCnf | src/main.cpp:441-466 | in place: header, both MAC addresses, run id, network id and key at their places in the MATCH.CNF |
| SlacUnit.Matcher.RandomizeNmk | src/main.cpp:232-239 | in place: a fresh key, and a network id that is its head with two bits cleared |
| SlacUnit.Matcher.HandleSlacFailure | src/main.cpp:488-500 | in place: counters, measurements, state and pending key rotation after a failure |
| SlacUnit.Matcher.SetACVarField | src/main.cpp:262-267 | in place: the 58 quotients, narrowed to bytes |
| SlacUnit.Matcher.AddToAverages | src/main.cpp:586-593 | in place: the 58 accumulators, 16 bits wide |
| SlacUnit.Matcher.PollModem | src/main.cpp:675-752 | in place: the modem state switch of one pass |
| Deframe.Receiver.DrainBurst | src/main.cpp:711-750 | in place: the shifting loop hands over what the value-level loop does, and reports where the program would spin |
| CpControl.CpUnit.RingPushAndMax | src/cp_control.cpp:82-91 | in place: the ring keeps the last min(n, 24) plateaus and the result is their maximum |
| CpControl.CpUnit.UpdateState | src/cp_control.cpp:175-195 | in place: the state equals the specification over the whole burst history, which `CpControl.StateExactly` states in millivolts |
| CpControl.CpUnit.Tick | src/cp_control.cpp:175-203 | in place: a commanded contactor is opened if and only if the history no longer shows a vehicle, in millivolts |
| CpControl.CpUnit.ContactorCommand | src/cp_control.cpp:217-230 | in place: command, feedback and result |
| DcCan.DcUnit.Enable | src/dc_can.cpp:232-246 | in place: switching, with one turn-off command on the bus |
| DcCan.DcUnit.SetTargetValues | src/dc_can.cpp:252-257 | in place: negative targets are cut to zero |
| DcCan.DcUnit.RampTickNow | src/dc_can.cpp:158-184 | in place: one ramp tick and the resend decision |
| DcCan.DcUnit.Stop | src/dc_can.cpp:277-285 | in place: emergency stop |
| IsoWatchdog.IsoWatchdogUnit.CheckNow | src/iso_watchdog.cpp:31-43 | in place: the check and its verdict |
| IsoWatchdog.IsoWatchdogUnit.StartState | src/iso_watchdog.cpp:18-22 | in place: start |
| IsoWatchdog.IsoWatchdogUnit.ClearAll | src/iso_watchdog.cpp:24-29 | in place: clear, retry count included |
| Frames.Packer.SendSegment | src/tcp.cpp:1467-1579 | in place, for every segment tcp_transmit accepts: through three fixed buffers the transmit buffer ends up with exactly the specified frame, unless the packet buffers are left, by a write if and only if the segment is longer than 160 bytes (payload above 140), by a read if and only if it is longer than 146 (payload above 126) |
| Frames.Packer.PrepareTcpHeader | src/tcp.cpp:1525-1579 | in place: header, options and checksum in front of a payload already in place |
| Frames.Packer.SendSdpResponse | src/ipv6.cpp:323-328 | in place: through four fixed buffers the transmit buffer ends up with exactly the specified SDP answer |
| Frames.Packer.BuildSdpResponseFrame | src/ipv6.cpp:263-287 | in place: the 28 bytes of the SDP answer |
| Frames.Packer.PackResponseIntoUdp | src/ipv6.cpp:228-260 | in place: UDP header, payload and checksum |

## Left out

- EXI encoding and decoding (libcbv2g): an oracle. The contents of informational response fields are not modelled, only which answer is given, positive or not, and its effects.
- Calls of `decodeV2GTP` while the receive loop spins on a length that wraps to zero: the model reports the spin and stops there. Likewise the repeated modem resets of the de-framing loop on an invalid header, and a front shorter than 14 bytes that looks like a header.
- Preemption between tasks: every handler and every timer pass is one step.
- Float rounding, and limits on the requested targets, which the program does not clamp.
- The embedded ISO 15118-20 controller, `src/iso15118_dc.cpp`, the lwIP bridge, sockets, TLS, key store, command line, SPI, PWM and CAN drivers: plumbing, replaced by arbitrary inputs and a log.
- The module table, polling and discovery of `src/dc_can.cpp`, and the on/off command of the emergency stop: readings, and a command without setpoints. What the modules were last told means the last command with setpoints.
- HlcWatch.ChargingKept: its ticks meet no retransmission or idle limit by assumption, because answers and acknowledgements of the vehicle decide that; `TcpClock.TickInTrueTime` says when they do.
- The PWM duty written to the pilot line, and the manual mode: an output derived from the pilot state alone.
- Neighbour solicitation, SDP request parsing and the remaining modem frames (SET_KEY, GET_SW, SLAC_PARAM.CNF contents): constants copied into place.
- Fragment, ESP and authentication headers: the walk treats them with the same length rule, which is not the rule of all of them; the encoding theorem is stated for the four kinds whose rule it is.
- Frames.Packer.SendSegment: stops where the packet buffers are left; what the program reads or overwrites there is not modelled. The sender's specification counts such segments as sent.
- Ipv6.ComputePayloadMetadata: stops where the walk would read behind the receive buffer; what lies there is not modelled.
- Duplicated requests, a peer that splits or merges payloads, and reordering in the network: outside `StopAndWait`, whose queues lose but do not reorder.
- The addresses and keys of `SlacUnit.Matcher` are values, not arrays; its accumulator and transmit buffer are arrays.
- Clock readings that differ within one pass of Timer20ms: one reading stands for all of them, so a timer set and compared in the same pass sees no time go by.
- Tcp.Station.EvaluateTcpPacket: when the loop on the received data spins, nothing is stated about the state, because the program never leaves the call.
- HlcDeadline.EnergyDeadline: stated for ticks less than 2^31 ms apart and a timeout of at most 2^31 ms, because beyond that the signed comparison no longer means expiry (`IsoWatchdog.ExpiredCanMiss`).
- TcpTransport.SilenceEndsIdle: stated for a last activity whose wrapped clock reading is not zero, because the program takes zero for "no activity".
