/** The transport half of src/tcp.cpp on values: inbound segments, buffered payload, the timer tick and
    the transport events, all acting on the one session state; and runs of such events. */
module TcpLink {
  import opened Bytes
  import opened CpControl
  import opened DcCan
  import opened IsoWatchdog
  import opened TcpSender
  import opened Hlc
  import V2gtp

  /** What decoding and handling the n-th frame of one call meets. */
  datatype FrameInput = FrameInput(d: Decoded, e: Env)
  type Oracle = nat -> FrameInput

  /** Handles the first n frames of one call, in order. */
  function OnFrames(t: State, n: nat, o: Oracle): State {
    if n == 0 then t
    else OnFrame(OnFrames(t, n - 1, o), o(n - 1).d, o(n - 1).e)
  }

  /** Handles what reassembly made of the buffered bytes. */
  function HandleDeframed(t: State, d: V2gtp.Deframed, o: Oracle, openBefore: bool): State {
    var p := OnFrames(t, |d.frames|, o);
    if d.end == V2gtp.Rejected then ResetSession(p, openBefore) else p.(rx := d.rest)
  }

  /** tcp_bufferPayload. Where the loop of the program spins for ever the value is the state in which it
      spins. */
  function BufferPayload(t: State, payload: Data, o: Oracle, openBefore: bool): State {
    if payload == [] then t
    else if |t.rx| + |payload| > V2gtp.RX_CAPACITY then ResetSession(t, openBefore)
    else HandleDeframed(t, V2gtp.Deframe(V2gtp.Accept(t.rx, payload)), o, openBefore)
  }

  // ---------------------------------------------------------------- inbound segments

  const SECC_PORT: int := 15118
  const FIRST_SEQ: u32 := 0x0102_0304

  /** The fields the receiver takes out of a TCP header it does not reject. */
  datatype Seg = Seg(
    srcPort: u16, dstPort: u16, seqNr: u32, ackNr: u32,
    fin: bool, syn: bool, rst: bool, ack: bool,
    payload: Data)

  function Close(t: State, openBefore: bool): State {
    ResetSession(t.(tx := t.tx.(tcp := Closed)), openBefore)
  }

  function OnSyn(x: Sender, s: Seg): Sender {
    if x.tcp != Closed then x
    else
      var y := x.(peerPort := s.srcPort, seqNr := FIRST_SEQ, ackNr := (s.seqNr + 1) % TWO32, tcp := SynAck);
      Put(y, SynAckSent(y.seqNr, y.ackNr))
  }

  /** Data of an established connection: acknowledged first, then handled. */
  function OnData(t: State, s: Seg, o: Oracle, openBefore: bool): State {
    var x := t.tx.(ackNr := (s.seqNr + |s.payload|) % TWO32, seqNr := s.ackNr);
    BufferPayload(t.(tx := Put(x, AckSent(x.seqNr, x.ackNr))), s.payload, o, openBefore)
  }

  function OnFin(t: State, s: Seg, openBefore: bool): State {
    var x := t.tx.(ackNr := (s.seqNr + |s.payload| + 1) % TWO32);
    Close(t.(tx := Put(x, AckSent(x.seqNr, x.ackNr))), openBefore)
  }

  function OnEstablished(t: State, s: Seg, o: Oracle, openBefore: bool): State {
    if |s.payload| >= V2gtp.RX_CAPACITY then ResetSession(t, openBefore)
    else
      var t1 := if s.payload != [] then OnData(t, s, o, openBefore) else t;
      var t2 := if s.ack then t1.(tx := OnAck(t1.tx, s.ackNr)) else t1;
      if s.fin then OnFin(t2, s, openBefore) else t2
  }

  /** evaluateTcpPacket, for a segment with a valid header. */
  function OnSegment(t: State, s: Seg, o: Oracle, e: Env): State {
    if s.dstPort != SECC_PORT then t
    else
      var t1 := t.(lastActivity := e.now);
      if s.rst then Close(t1, e.openBefore)
      else if s.syn && !s.ack then t1.(tx := OnSyn(t1.tx, s))
      else if s.ack && t1.tx.tcp == SynAck then
        (if s.ackNr == (t1.tx.seqNr + 1) % TWO32 then t1.(tx := t1.tx.(tcp := Established)) else t1)
      else if t1.tx.tcp != Established then t1
      else OnEstablished(t1, s, o, e.openBefore)
  }

  // ---------------------------------------------------------------- tick

  predicate RetryDue(t: State, now: u32) {
    t.tx.awaiting && t.tx.last != [] && Sub32(now, t.tx.lastTx) > RETRANSMIT_TIMEOUT_MS
  }

  predicate IdleDue(t: State, now: u32) {
    t.lastActivity != 0 && Sub32(now, t.lastActivity) > IDLE_TIMEOUT_MS
  }

  function RetryStage(t: State, e: Env): State {
    if !RetryDue(t, e.now) then t
    else if t.tx.attempts < MAX_RETRANSMIT
    then t.(tx := Retransmit(t.tx.(attempts := t.tx.attempts + 1), e.now))
    else Close(t, e.openBefore)
  }

  function IdleStage(t: State, e: Env): State {
    if IdleDue(t, e.now) then Close(t, e.openBefore) else t
  }

  function WatchdogStage(t: State, e: Env): State {
    var (wd, verdict) := Check(t.wd, e.now);
    var t1 := t.(wd := wd);
    match verdict
    case Ok => t1
    case Timeout => ResetSession(t1, e.openBefore)
    case Fatal => TransportReset(ResetSession(t1, e.openBefore), e)
  }

  function TcpTick(t: State, e: Env): State {
    WatchdogStage(if t.tx.tcp == Established then IdleStage(RetryStage(t, e), e) else t, e)
  }

  // ---------------------------------------------------------------- other events

  function TransportReset(t: State, e: Env): State {
    var r := ResetSession(t, e.openBefore);
    r.(tx := r.tx.(tcp := Closed))
  }

  function TransportConnected(t: State, e: Env): State {
    t.(tx := t.tx.(tcp := Established), lastActivity := e.now)
  }

  function SocketPayload(t: State, payload: Data, o: Oracle, e: Env): State {
    BufferPayload(t.(lastActivity := e.now), payload, o, e.openBefore)
  }

  /** The control-pilot part of the 20 ms timer: without a vehicle the contactor is opened and then
      the output disabled. */
  function CpCheck(t: State, connected: bool, openBefore: bool): State {
    var t1 := t.(connected := connected);
    if connected then t1
    else
      var t2 := if t1.relay.cmd then t1.(relay := Drive(t1.relay, false, openBefore, false).0) else t1;
      if t2.dc.enabled then t2.(dc := EnableOutput(t2.dc, false)) else t2
  }

  datatype Event =
    | Packet(seg: Seg, o: Oracle, e: Env)
    | SocketData(payload: Data, o: Oracle, e: Env)
    | SocketSender(on: bool)
    | TransportClosed(e: Env)
    | TransportOpened(e: Env)
    | Tick(e: Env)
    | Pilot20ms(connected: bool, openBefore: bool)
    | DcTick(now: u32)

  function Step(t: State, ev: Event): State {
    match ev
    case Packet(s, o, e) => OnSegment(t, s, o, e)
    case SocketData(p, o, e) => SocketPayload(t, p, o, e)
    case SocketSender(on) => t.(tx := t.tx.(socket := on))
    case TransportClosed(e) => TransportReset(t, e)
    case TransportOpened(e) => TransportConnected(t, e)
    case Tick(e) => TcpTick(t, e)
    case Pilot20ms(c, openBefore) => CpCheck(t, c, openBefore)
    case DcTick(now) => t.(dc := RampTick(t.dc, now))
  }

  function Run(t: State, es: seq<Event>): State {
    if es == [] then t else Step(Run(t, es[..|es| - 1]), es[|es| - 1])
  }

  /** Power-up: nothing decoded yet, contactor released, output off. */
  function Boot(wired: bool, canOk: bool, pin: bool, timeout: u32, retries: byte): State {
    State(ForAppProtocol, Din,
          DinDoc({}, false, false, false, 0.0, 0.0), IsoDoc({}, OtherPayment, Begin, 0.0, 0.0),
          false, false, false, false,
          Feedback(Relay(wired, false, false), pin), Initial(canOk),
          Watchdog(timeout, retries, false, 0, 0, 0),
          Sender(Closed, false, 0, 0, 0, false, 0, [], 0, 0, []), [], 0, [])
  }
}
