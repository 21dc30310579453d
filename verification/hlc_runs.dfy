/** Runs from power-up that end where one would not expect a run to end. Sockets are handled as the servers do:
    reset, connected, sender registered, data, sender removed, reset (src/tcp_socket_server.cpp,
    src/tls_server.cpp). */
module HlcRuns {
  import opened Bytes
  import opened CpControl
  import opened DcCan
  import opened TcpSender
  import opened Hlc
  import opened TcpLink
  import opened HlcSafety
  import opened HlcFindings
  import V2gtp

  /** Readings of a quiet moment, every answer encodable, no auxiliary contact closed. */
  const QUIET: Env := Env(0, false, false, false, false, false, Some([]), Some([]))

  // ---------------------------------------------------------------- single events

  /** One V2GTP frame received whole, decoded as d. */
  function OneFrame(d: Decoded): Event {
    SocketData(V2gtp.Frame([0]), (n: nat) => FrameInput(d, QUIET), QUIET)
  }

  /** One minimal frame into an empty buffer is handed over and leaves the buffer empty. */
  lemma OneFrameDeframed()
    ensures V2gtp.Deframe(V2gtp.Accept([], V2gtp.Frame([0]))) ==
            V2gtp.Deframed([V2gtp.Frame([0])], [], V2gtp.Pending)
  {
    hide V2gtp.Deframe, V2gtp.NextFrame, V2gtp.Frame;
    var f := V2gtp.Frame([0]);
    assert f + [] == f && [] + f == f;
    V2gtp.FrameIsTaken([0], []);
    V2gtp.DeframeStep(f);
    V2gtp.DeframeEmpty();
    assert V2gtp.Accept([], f) == f;
  }

  lemma OneFrameStep(t: State, d: Decoded)
    requires t.rx == []
    ensures Step(t, OneFrame(d)) == OnFrame(t.(lastActivity := 0), d, QUIET)
  {
    hide OnFrame, V2gtp.Deframe, V2gtp.Accept, V2gtp.Frame;
    OneFrameDeframed();
    var t1 := t.(lastActivity := 0);
    var o: Oracle := (n: nat) => FrameInput(d, QUIET);
    OnlyFrame(t1, d, o);
    FrameClearsRx(t1, d, QUIET);
    var p := V2gtp.Frame([0]);
    assert BufferPayload(t1, p, o, false) == OnFrames(t1, 1, o).(rx := []);
  }

  lemma OnlyFrame(t: State, d: Decoded, o: Oracle)
    requires o(0) == FrameInput(d, QUIET)
    ensures OnFrames(t, 1, o) == OnFrame(t, d, QUIET)
  {
    hide OnFrame;
    assert OnFrames(t, 0, o) == t;
  }

  lemma FrameClearsRx(t: State, d: Decoded, e: Env)
    ensures OnFrame(t, d, e).rx == []
  {
  }

  lemma RunStep(b: State, es: seq<Event>, ev: Event)
    ensures Run(b, es + [ev]) == Step(Run(b, es), ev)
  {
    hide Step;
    assert (es + [ev])[..|es|] == es;
  }

  const NO_DIN: DinDoc := DinDoc({}, false, false, false, 0.0, 0.0)
  const NO_ISO: IsoDoc := IsoDoc({}, ExternalPayment, Renegotiate, 0.0, 0.0)

  /** A DIN document carrying one request; the vehicle is ready and pays externally. */
  function DinRequest(m: Msg): DinDoc {
    DinDoc({m}, true, true, false, 0.0, 0.0)
  }

  /** Idle output, nothing buffered, and the relay wired or not as given. */
  predicate Quiet(t: State, phase: Phase, protocol: Protocol, din: DinDoc, wired: bool) {
    && t.phase == phase && t.protocol == protocol && t.dinDoc == din
    && t.rx == [] && t.dc.canOk && !t.dc.enabled && t.relay.wired == wired && !t.expectDetails
  }

  lemma QuietMeans(t: State, phase: Phase, protocol: Protocol, din: DinDoc, wired: bool)
    requires Quiet(t, phase, protocol, din, wired)
    ensures t.phase == phase && t.protocol == protocol && t.dinDoc == din && t.rx == []
    ensures t.relay.wired == wired && !t.dc.enabled
  {
  }

  /** An offer of one schema. */
  function Offer(s: Scheme): Event {
    OneFrame(Decoded(true, true, [App(s, Some([]))], NO_DIN, NO_ISO))
  }

  function DinFrame(m: Msg): Event {
    OneFrame(Decoded(true, false, [], DinRequest(m), NO_ISO))
  }

  function IsoFrame(m: Msg): Event {
    OneFrame(Decoded(true, false, [], NO_DIN, NO_ISO.(used := {m})))
  }

  /** What one frame does past the handshake. */
  lemma DinFrameStep(t: State, m: Msg)
    requires t.rx == [] && t.protocol == Din && t.phase != ForAppProtocol
    ensures Step(t, DinFrame(m)) == OnDin(t.(lastActivity := 0, dinDoc := DinRequest(m)), QUIET).(rx := [])
  {
    OneFrameStep(t, Decoded(true, false, [], DinRequest(m), NO_ISO));
    hide Step, OnIso, OnDin, Handshake;
    assert t.(lastActivity := 0, dinDoc := DinRequest(m)) == t.(lastActivity := 0, rx := [], dinDoc := DinRequest(m));
  }

  lemma IsoFrameStep(t: State, m: Msg)
    requires t.rx == [] && t.protocol == Iso2 && t.phase != ForAppProtocol
    ensures Step(t, IsoFrame(m)) ==
            OnIso(t.(lastActivity := 0, isoDoc := NO_ISO.(used := {m})), QUIET).(rx := [])
  {
    var iso := NO_ISO.(used := {m});
    OneFrameStep(t, Decoded(true, false, [], NO_DIN, iso));
    hide Step, OnIso, OnDin, Handshake;
    assert t.(lastActivity := 0, isoDoc := iso) == t.(lastActivity := 0, rx := [], isoDoc := iso);
  }

  /** A vehicle is plugged in. */
  const PLUGGED: Event := Pilot20ms(true, false)

  lemma PluggedStep(t: State, phase: Phase, protocol: Protocol, din: DinDoc, wired: bool)
    requires Quiet(t, phase, protocol, din, wired)
    ensures Quiet(Step(t, PLUGGED), phase, protocol, din, wired)
  {
  }

  lemma ClosedStep(t: State, phase: Phase, protocol: Protocol, din: DinDoc, wired: bool)
    requires Quiet(t, phase, protocol, din, wired)
    ensures Quiet(Step(t, TransportClosed(QUIET)), ForAppProtocol, Din, din, wired)
    ensures !Step(t, TransportClosed(QUIET)).tx.awaiting
  {
    var t1 := StopPower(t, false);
    assert t1.dc.canOk && t1.relay.wired == wired;
  }

  lemma OpenedStep(t: State, e: Env, din: DinDoc, wired: bool)
    requires Quiet(t, ForAppProtocol, Din, din, wired)
    ensures Quiet(Step(t, TransportOpened(e)), ForAppProtocol, Din, din, wired)
    ensures Step(t, TransportOpened(e)).tx == t.tx.(tcp := Established)
    ensures Step(t, TransportOpened(e)).lastActivity == e.now
  {
  }

  lemma SenderStep(t: State, on: bool, phase: Phase, protocol: Protocol, din: DinDoc, wired: bool)
    requires Quiet(t, phase, protocol, din, wired)
    ensures var r := Step(t, SocketSender(on));
            && Quiet(r, phase, protocol, din, wired)
            && r.tx == t.tx.(socket := on) && r.lastActivity == t.lastActivity
  {
  }

  /** A client connects, as the socket server handles it. */
  lemma Connect(b: State, es: seq<Event>, e: Env, din: DinDoc, wired: bool) returns (fs: seq<Event>)
    requires Quiet(Run(b, es), ForAppProtocol, Din, din, wired)
    ensures fs == es + [TransportClosed(QUIET)] + [TransportOpened(e)] + [SocketSender(true)]
    ensures var t := Run(b, fs);
            && Quiet(t, ForAppProtocol, Din, din, wired)
            && t.tx.tcp == Established && t.tx.socket && !t.tx.awaiting && t.lastActivity == e.now
  {
    hide Step, Run, Quiet;
    ClosedStep(Run(b, es), ForAppProtocol, Din, din, wired);
    RunStep(b, es, TransportClosed(QUIET));
    fs := es + [TransportClosed(QUIET)];
    OpenedStep(Run(b, fs), e, din, wired);
    RunStep(b, fs, TransportOpened(e));
    fs := fs + [TransportOpened(e)];
    SenderStep(Run(b, fs), true, ForAppProtocol, Din, din, wired);
    RunStep(b, fs, SocketSender(true));
    fs := fs + [SocketSender(true)];
  }

  /** The client goes away, as the socket server handles it. */
  lemma Disconnect(b: State, es: seq<Event>, phase: Phase, protocol: Protocol, din: DinDoc, wired: bool)
    returns (fs: seq<Event>)
    requires Quiet(Run(b, es), phase, protocol, din, wired)
    ensures fs == es + [SocketSender(false)] + [TransportClosed(QUIET)]
    ensures Quiet(Run(b, fs), ForAppProtocol, Din, din, wired)
  {
    hide Step, Run, Quiet;
    SenderStep(Run(b, es), false, phase, protocol, din, wired);
    RunStep(b, es, SocketSender(false));
    fs := es + [SocketSender(false)];
    ClosedStep(Run(b, fs), phase, protocol, din, wired);
    RunStep(b, fs, TransportClosed(QUIET));
    fs := fs + [TransportClosed(QUIET)];
  }

  /** Power-up with a vehicle plugged in. */
  lemma PowerUp(wired: bool) returns (b: State)
    ensures PoweredUp(b) && Quiet(Run(b, [PLUGGED]), ForAppProtocol, Din, NO_DIN, wired)
    ensures !Run(b, [PLUGGED]).wd.active
  {
    b := Boot(wired, true, false, 4000, 3);
    assert Run(b, []) == b;
    PluggedStep(b, ForAppProtocol, Din, NO_DIN, wired);
    RunStep(b, [], PLUGGED);
    assert [] + [PLUGGED] == [PLUGGED];
  }

  // ---------------------------------------------------------------- dialogue steps

  /** An offer of one schema is taken up. */
  lemma OfferStep(t: State, s: Scheme, din: DinDoc, wired: bool)
    requires Quiet(t, ForAppProtocol, Din, din, wired) && s != OtherScheme
    ensures Quiet(Step(t, Offer(s)), ForSessionSetup, if s == DinScheme then Din else Iso2, din, wired)
    ensures Step(t, Offer(s)).tx.tcp == t.tx.tcp && Step(t, Offer(s)).tx.socket == t.tx.socket
  {
    var d := Decoded(true, true, [App(s, Some([]))], NO_DIN, NO_ISO);
    OneFrameStep(t, d);
    hide Answer, StartWatchdog, Step, OnIso, OnDin;
    assert d.apps[1..] == [];
    var t1 := t.(lastActivity := 0);
    assert Handshake(t1, d.apps, 0) == OneApp(t1, d.apps[0], 0);
  }

  /** A DIN PowerDelivery that matches nothing is remembered. */
  lemma RememberStep(t: State, din: DinDoc, wired: bool)
    requires Quiet(t, ForSessionSetup, Din, din, wired)
    ensures Quiet(Step(t, DinFrame(PowerDelivery)), ForSessionSetup, Din, DinRequest(PowerDelivery), wired)
  {
    hide Step, OnDin, DinFrame;
    DinFrameStep(t, PowerDelivery);
    MatchesNothing(t.(lastActivity := 0, dinDoc := DinRequest(PowerDelivery)));
  }

  lemma MatchesNothing(t: State)
    requires t.phase == ForSessionSetup && t.dinDoc == DinRequest(PowerDelivery)
    ensures OnDin(t, QUIET) == t
  {
    hide AdvanceDin;
  }

  /** The request each phase of the walk expects, and the phase it leads to. */
  function Expected(p: Phase): Option<(Msg, Phase)> {
    match p
    case ForPaymentSelection => Some((PaymentSelection, ForAuthorization))
    case ForAuthorization => Some((Authorization, ForChargeParameter))
    case _ => IsoTable(p)
  }

  function Frame(protocol: Protocol, m: Msg): Event {
    if protocol == Iso2 then IsoFrame(m) else DinFrame(m)
  }

  /** The DIN document after such a request: an ISO request leaves it alone. */
  function DocAfter(protocol: Protocol, din: DinDoc, m: Msg): DinDoc {
    if protocol == Iso2 then din else DinRequest(m)
  }

  lemma IsoWalkStep(t: State, phase: Phase, din: DinDoc, wired: bool)
    requires Quiet(t, phase, Iso2, din, wired) && Expected(phase).Some?
    ensures var (m, next) := Expected(phase).value;
            Quiet(Step(t, IsoFrame(m)), next, Iso2, din, wired)
  {
    var (m, next) := Expected(phase).value;
    hide Step, OnIso, IsoFrame;
    IsoFrameStep(t, m);
    IsoWalkRequest(t.(lastActivity := 0, isoDoc := NO_ISO.(used := {m})), m, next, wired);
  }

  lemma IsoWalkRequest(t: State, m: Msg, next: Phase, wired: bool)
    requires Quiet(t, t.phase, Iso2, t.dinDoc, wired) && Expected(t.phase) == Some((m, next))
    requires t.isoDoc == NO_ISO.(used := {m})
    ensures Quiet(OnIso(t, QUIET), next, Iso2, t.dinDoc, wired)
  {
    hide Answer, StartWatchdog, OnDin, IsoPayment, AdvanceIso, Quiet;
    match t.phase
    case ForPaymentSelection => QuietPayment(t, wired);
    case _ => QuietAdvance(t, m, next, wired);
  }

  lemma QuietPayment(t: State, wired: bool)
    requires Quiet(t, ForPaymentSelection, Iso2, t.dinDoc, wired) && t.isoDoc.payment == ExternalPayment
    ensures Quiet(IsoPayment(t, QUIET), ForAuthorization, Iso2, t.dinDoc, wired)
  {
    hide Answer, StartWatchdog, ResetSession;
  }

  lemma QuietAdvance(t: State, m: Msg, next: Phase, wired: bool)
    requires Quiet(t, t.phase, Iso2, t.dinDoc, wired)
    ensures Quiet(AdvanceIso(t, m, next, QUIET), next, Iso2, t.dinDoc, wired)
    ensures IsoAuthorization(t, QUIET) == AdvanceIso(t, Authorization, ForChargeParameter, QUIET)
  {
    hide Answer, StartWatchdog, ReportStatus;
    ReportKeepsWiring(t, false);
  }

  lemma ReportKeepsWiring(t: State, pin: bool)
    ensures ReportStatus(t, pin).relay.wired == t.relay.wired
  {
  }

  lemma DinWalkStep(t: State, phase: Phase, din: DinDoc, wired: bool)
    requires Quiet(t, phase, Din, din, wired) && Expected(phase).Some?
    ensures var (m, next) := Expected(phase).value;
            Quiet(Step(t, DinFrame(m)), next, Din, DinRequest(m), wired)
  {
    var (m, next) := Expected(phase).value;
    hide Step, OnDin, DinFrame;
    DinFrameStep(t, m);
    DinWalkRequest(t.(lastActivity := 0, dinDoc := DinRequest(m)), m, next, wired);
  }

  lemma DinWalkRequest(t: State, m: Msg, next: Phase, wired: bool)
    requires Quiet(t, t.phase, Din, DinRequest(m), wired) && Expected(t.phase) == Some((m, next))
    ensures Quiet(OnDin(t, QUIET), next, Din, DinRequest(m), wired)
  {
    hide AdvanceDin, Quiet;
    QuietMeans(t, t.phase, Din, DinRequest(m), wired);
    assert OnDin(t, QUIET) == AdvanceDin(t, m, next, QUIET);
    QuietDinAdvance(t, m, next, wired);
  }

  lemma QuietDinAdvance(t: State, m: Msg, next: Phase, wired: bool)
    requires Quiet(t, t.phase, Din, t.dinDoc, wired)
    ensures Quiet(AdvanceDin(t, m, next, QUIET), next, Din, t.dinDoc, wired)
  {
    hide Answer, ReportStatus;
    ReportKeepsWiring(t, false);
  }

  lemma WalkStep(t: State, phase: Phase, protocol: Protocol, din: DinDoc, wired: bool)
    requires Quiet(t, phase, protocol, din, wired) && Expected(phase).Some?
    ensures var (m, next) := Expected(phase).value;
            Quiet(Step(t, Frame(protocol, m)), next, protocol, DocAfter(protocol, din, m), wired)
  {
    hide Step, Quiet, IsoFrame, DinFrame, Expected;
    match protocol
    case Iso2 => IsoWalkStep(t, phase, din, wired);
    case Din => DinWalkStep(t, phase, din, wired);
  }

  /** Walks a session from its opening to the phase that waits for PowerDelivery. */
  lemma Walk(b: State, es: seq<Event>, phase: Phase, protocol: Protocol, din: DinDoc, wired: bool, steps: nat)
    returns (fs: seq<Event>, doc: DinDoc)
    requires Quiet(Run(b, es), phase, protocol, din, wired)
    requires PhaseNr(phase) + steps == PhaseNr(ForPowerDelivery) && steps <= 7
    ensures Quiet(Run(b, fs), ForPowerDelivery, protocol, doc, wired)
    ensures protocol == Iso2 ==> doc == din
    decreases steps
  {
    hide Step, Run, Quiet, Frame;
    if steps == 0 {
      fs, doc := es, din;
    } else {
      WalkStep(Run(b, es), phase, protocol, din, wired);
      var (m, next) := Expected(phase).value;
      var ev := Frame(protocol, m);
      RunStep(b, es, ev);
      hide Expected;
      fs, doc := Walk(b, es + [ev], next, protocol, DocAfter(protocol, din, m), wired, steps - 1);
    }
  }

  /** A session of one protocol is opened on a new connection. */
  lemma OpenSession(b: State, es: seq<Event>, s: Scheme, din: DinDoc, wired: bool) returns (fs: seq<Event>)
    requires Quiet(Run(b, es), ForAppProtocol, Din, din, wired) && s != OtherScheme
    ensures Quiet(Run(b, fs), ForSessionSetup, if s == DinScheme then Din else Iso2, din, wired)
    ensures Run(b, fs).tx.tcp == Established && Run(b, fs).tx.socket
  {
    hide Step, Run, Quiet, Offer;
    fs := Connect(b, es, QUIET, din, wired);
    OfferStep(Run(b, fs), s, din, wired);
    RunStep(b, fs, Offer(s));
    fs := fs + [Offer(s)];
  }

  // ---------------------------------------------------------------- an output nobody asked for

  /** A run from power-up over two connections. On the first, a DIN session hears a PowerDelivery it does not
      act on. On the second, an ISO session is walked to where it waits for PowerDelivery with an idle output;
      a CurrentDemand request, answering to no ISO branch there, then switches the DC output on, through the
      DIN document of the first connection. */
  lemma UnrequestedStartReachable() returns (b: State, es: seq<Event>)
    ensures PoweredUp(b)
    ensures var t := Run(b, es);
            && t.protocol == Iso2 && t.phase == ForPowerDelivery && !t.dc.enabled
            && Step(t, IsoFrame(CurrentDemand)).dc.enabled
  {
    hide Step, Run, Quiet, DinFrame, IsoFrame;
    b := PowerUp(false);
    es := OpenSession(b, [PLUGGED], DinScheme, NO_DIN, false);
    RememberStep(Run(b, es), NO_DIN, false);
    RunStep(b, es, DinFrame(PowerDelivery));
    es := es + [DinFrame(PowerDelivery)];
    var doc := DinRequest(PowerDelivery);
    es := Disconnect(b, es, ForSessionSetup, Din, doc, false);
    es := OpenSession(b, es, Iso2Scheme, doc, false);
    var left;
    es, left := Walk(b, es, ForSessionSetup, Iso2, doc, false, 7);
    QuietMeans(Run(b, es), ForPowerDelivery, Iso2, doc, false);
    StaleStep(Run(b, es));
  }

  lemma StaleStep(t: State)
    requires Quiet(t, ForPowerDelivery, Iso2, DinRequest(PowerDelivery), false)
    ensures Step(t, IsoFrame(CurrentDemand)).dc.enabled
  {
    hide Step, OnIso, IsoFrame;
    IsoFrameStep(t, CurrentDemand);
    StaleStart(t.(lastActivity := 0, isoDoc := NO_ISO.(used := {CurrentDemand})));
  }

  lemma StaleStart(t: State)
    requires Quiet(t, ForPowerDelivery, Iso2, DinRequest(PowerDelivery), false) && PowerDelivery !in t.isoDoc.used
    ensures OnIso(t, QUIET).dc.enabled
  {
    hide Answer, AnswerIsoPower, ReportStatus, DcOutputOn;
  }

  // ---------------------------------------------------------------- a coil left energised

  /** A run from power-up, with a contactor whose contact never confirms: a DIN session asks for power, is
      refused, is stopped and is over, with the vehicle plugged in and the coil still energised. */
  lemma EnergisedEndReachable() returns (b: State, es: seq<Event>)
    ensures PoweredUp(b)
    ensures var t := Run(b, es); t.phase == ForAppProtocol && t.relay.cmd && !t.dc.enabled
  {
    hide Step, Run, Quiet, DinFrame;
    b := PowerUp(true);
    es := OpenSession(b, [PLUGGED], DinScheme, NO_DIN, true);
    var doc;
    es, doc := Walk(b, es, ForSessionSetup, Din, NO_DIN, true, 7);
    RefusedStep(Run(b, es), doc);
    RunStep(b, es, DinFrame(PowerDelivery));
    es := es + [DinFrame(PowerDelivery)];
    StoppedStep(Run(b, es));
    RunStep(b, es, DinFrame(SessionStop));
    es := es + [DinFrame(SessionStop)];
  }

  /** Refused: waiting for the session's end with the coil energised. */
  predicate Refused(t: State) {
    t.phase == ForSessionStop && t.protocol == Din && t.relay.cmd && !t.dc.enabled && t.rx == []
  }

  lemma RefusedStep(t: State, doc: DinDoc)
    requires Quiet(t, ForPowerDelivery, Din, doc, true)
    ensures Refused(Step(t, DinFrame(PowerDelivery)))
  {
    hide Step, OnDin, DinFrame;
    DinFrameStep(t, PowerDelivery);
    RefusedRequest(t.(lastActivity := 0, dinDoc := DinRequest(PowerDelivery)));
  }

  lemma RefusedRequest(t: State)
    requires Quiet(t, ForPowerDelivery, Din, DinRequest(PowerDelivery), true)
    ensures Refused(OnDin(t, QUIET).(rx := []))
  {
    hide AnswerDinPower, Closes;
    NeverConfirmed(t.relay);
    DinPowerContactor(t, QUIET);
    DinPowerProtocol(t, QUIET);
  }

  lemma DinPowerProtocol(t: State, e: Env)
    ensures AnswerDinPower(t, e).protocol == t.protocol
  {
    hide Answer, ReportStatus, DcOutputOn, EnableOutput, Drive;
  }

  lemma NeverConfirmed(r: Relay)
    requires r.wired
    ensures !Closes(r, QUIET)
  {
  }

  lemma StoppedStep(t: State)
    requires Refused(t)
    ensures var r := Step(t, DinFrame(SessionStop)); r.phase == ForAppProtocol && r.relay.cmd && !r.dc.enabled
  {
    hide Step, OnDin, DinFrame;
    DinFrameStep(t, SessionStop);
    StoppedRequest(t.(lastActivity := 0, dinDoc := DinRequest(SessionStop)));
  }

  lemma StoppedRequest(t: State)
    requires Refused(t) && t.dinDoc == DinRequest(SessionStop)
    ensures var r := OnDin(t, QUIET); r.phase == ForAppProtocol && r.relay == t.relay && r.dc == t.dc
  {
    hide Answer, DinMetering, DinLatePower;
  }

  // ---------------------------------------------------------------- data on a closed connection

  /** Nothing checks the connection state on the socket path. A client connects and says nothing for five
      seconds; the tick closes the connection, but not the socket; the next frame on it starts a dialogue
      behind a closed connection, answered through the socket. */
  lemma SocketDataWhileClosed() returns (b: State, es: seq<Event>)
    ensures PoweredUp(b)
    ensures var t := Run(b, es); t.tx.tcp == Closed && t.tx.socket && t.phase == ForSessionSetup
  {
    hide Step, Run, Quiet, Offer;
    b := PowerUp(false);
    es := Connect(b, [PLUGGED], QUIET.(now := 1), NO_DIN, false);
    IdleTick(Run(b, es));
    var tick := Tick(QUIET.(now := 5002));
    RunStep(b, es, tick);
    es := es + [tick];
    OfferStep(Run(b, es), DinScheme, NO_DIN, false);
    RunStep(b, es, Offer(DinScheme));
    es := es + [Offer(DinScheme)];
    QuietMeans(Run(b, es), ForSessionSetup, Din, NO_DIN, false);
  }

  lemma IdleTick(t: State)
    requires Quiet(t, ForAppProtocol, Din, NO_DIN, false)
    requires t.tx.tcp == Established && t.lastActivity == 1 && !t.tx.awaiting
    ensures var r := Step(t, Tick(QUIET.(now := 5002)));
            && Quiet(r, ForAppProtocol, Din, NO_DIN, false)
            && r.tx.tcp == Closed && r.tx.socket == t.tx.socket
  {
    var e := QUIET.(now := 5002);
    CloseQuiet(t, e);
    hide Close, Quiet;
    assert RetryStage(t, e) == t;
    assert IdleStage(t, e) == Close(t, e.openBefore);
    assert WatchdogStage(Close(t, e.openBefore), e) == Close(t, e.openBefore);
  }

  lemma CloseQuiet(t: State, e: Env)
    requires Quiet(t, ForAppProtocol, Din, NO_DIN, false)
    ensures var r := Close(t, e.openBefore);
            && Quiet(r, ForAppProtocol, Din, NO_DIN, false) && !r.wd.active
            && r.tx.tcp == Closed && r.tx.socket == t.tx.socket
  {
    hide EnableOutput, OrderOk, Progress, TallyOf, DcCan.Sound;
    OffKeepsCan(t.dc);
  }

  lemma OffKeepsCan(d: Dc)
    ensures EnableOutput(SetTargets(d, 0.0, 0.0), false).canOk == d.canOk
  {
  }
}
