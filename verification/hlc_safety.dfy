/** What every run of the station keeps: when the DC output may be on, and in which order the dialogue
    must have been walked through before it is switched on. */
module HlcSafety {
  import opened Bytes
  import opened CpControl
  import opened DcCan
  import opened IsoWatchdog
  import opened TcpSender
  import opened Hlc
  import opened TcpLink
  import V2gtp

  // ---------------------------------------------------------------- the invariant

  /** Output on means: charging, in the current-demand phase, contactor commanded closed. */
  predicate PowerSafe(t: State) {
    && (t.dc.enabled ==> t.charging && t.relay.cmd)
    && (t.charging ==> t.phase == ForCurrentDemand)
    && DcCan.Sound(t.dc)
  }

  /** Where the phase-order monitor must stand in each phase. */
  predicate Ordered(t: State) {
    var p, n := Progress(t.log), PhaseNr(t.phase);
    && OrderOk(t.log)
    && (if n == 0 then true
        else if t.phase == ForChargeParameter then p >= n
        else if n <= COMPLETE then p == n
        else p == COMPLETE)
  }

  predicate Good(t: State) {
    PowerSafe(t) && Ordered(t) && TcpSender.Sound(t.tx)
  }

  /** An ISO session past the handshake is watched. */
  predicate Watched(t: State) {
    t.protocol == Iso2 && t.phase != ForAppProtocol ==> t.wd.active
  }

  /** What handling a frame does to a good state: it stays good and as watched as it was, and neither
      the connection state nor the watchdog's configuration is touched. */
  predicate Fine(t: State, r: State, now: u32) {
    && Good(r)
    && (Watched(t) ==> Watched(r))
    && r.tx.tcp == t.tx.tcp
    && (r.tx.awaiting ==> t.tx.awaiting || t.tx.tcp == Established)
    && r.wd.timeout == t.wd.timeout && r.wd.maxRetries == t.wd.maxRetries
    && (t.wd.retries == 0 ==> r.wd.retries == 0)
    && ArmedAt(t, r, now)
  }

  /** The watchdog either runs on untouched or was restarted, on record, at `now`. */
  predicate ArmedAt(t: State, r: State, now: u32) {
    var before, after := TallyOf(t.log).arms, TallyOf(r.log).arms;
    && before <= after
    && (r.wd.active ==> if before == after then t.wd.active && r.wd.start == t.wd.start
                        else r.wd.start == now)
  }

  // ---------------------------------------------------------------- ISO requests

  /** What contactor and output handling leaves behind: output on only when charging with the contactor
      closed, nothing else touched. */
  predicate Powered(t: State, p: State, next: Phase) {
    && p.tx == t.tx && p.wd == t.wd && p.protocol == t.protocol
    && DcCan.Sound(p.dc) && (p.dc.enabled ==> p.charging && p.relay.cmd)
    && (p.charging ==> next == ForCurrentDemand)
    && OrderOk(p.log) && Progress(p.log) == COMPLETE
    && TallyOf(p.log).arms == TallyOf(t.log).arms
  }

  lemma StopEffect(t: State, openBefore: bool, next: Phase)
    requires DcCan.Sound(t.dc) && OrderOk(t.log) && Progress(t.log) == COMPLETE
    ensures Powered(t, StopPower(t, openBefore), next)
  {
    hide StopPower, OrderOk, Progress, TallyOf, DcCan.Sound;
  }

  lemma StartEffect(t: State, relay: Relay)
    requires DcCan.Sound(t.dc) && OrderOk(t.log) && Progress(t.log) == COMPLETE && relay.cmd
    ensures Powered(t, DcOutputOn(t.(relay := relay)), ForCurrentDemand)
  {
    hide DcOutputOn, OrderOk, Progress, TallyOf, DcCan.Sound;
  }

  lemma IsoPowerEffect(t: State, progress: ChargeProgress, e: Env)
    requires Good(t) && Progress(t.log) == COMPLETE
    ensures var (p, ok, next) := IsoPower(t, progress, e);
            && Powered(t, p, next)
            && (next == ForCurrentDemand || next == ForSessionStop || next == ForChargeParameter)
  {
    hide DcOutputOn, StopPower, OrderOk, Progress, TallyOf, TcpSender.Sound, Drive, DcCan.Sound;
    DriveCloses(t.relay, e.before, e.after);
    var relay := Drive(t.relay, true, e.before, e.after).0;
    StartEffect(t, relay);
    StopEffect(t.(relay := relay), e.openBefore, ForSessionStop);
    StopEffect(t, e.openBefore, ForSessionStop);
    StopEffect(t, e.openBefore, ForChargeParameter);
  }

  lemma IsoPowerFine(t: State, e: Env)
    requires Good(t) && Progress(t.log) == COMPLETE && t.phase != ForAppProtocol
    ensures Fine(t, AnswerIsoPower(t, e), e.now)
  {
    hide Answer, ReportStatus, OrderOk, Progress, TallyOf, TcpSender.Sound, IsoPower, DcCan.Sound;
    IsoPowerEffect(t, t.isoDoc.progress, e);
  }

  lemma DriveCloses(r: Relay, before: bool, after: bool)
    ensures Drive(r, true, before, after).0.cmd && Drive(r, true, before, after).0.wired == r.wired
  {
  }

  lemma AdvanceIsoFine(t: State, m: Msg, next: Phase, e: Env)
    requires Good(t) && !t.charging && t.protocol == Iso2
    requires IsoTable(t.phase) == Some((m, next)) ||
             (t.phase == ForAuthorization && m == Authorization && next == ForChargeParameter)
    ensures Fine(t, AdvanceIso(t, m, next, e), e.now)
  {
    hide Answer, ReportStatus, StartWatchdog, OrderOk, Progress, TallyOf, TcpSender.Sound;
  }

  lemma IsoCurrentDemandFine(t: State, e: Env)
    requires Good(t) && t.phase == ForCurrentDemand
    ensures Fine(t, IsoCurrentDemand(t, e), e.now)
  {
    hide SetTargets, DcCan.Sound, Answer, ReportStatus, StartWatchdog, OrderOk, Progress, TallyOf, TcpSender.Sound;
  }

  lemma IsoPaymentFine(t: State, e: Env)
    requires Good(t) && t.phase == ForPaymentSelection && t.protocol == Iso2
    ensures Fine(t, IsoPayment(t, e), e.now)
  {
    hide Answer, ResetSession, StartWatchdog, OrderOk, Progress;
  }

  lemma IsoStopFine(t: State, e: Env)
    requires Good(t)
    ensures Fine(t, IsoStop(t, e), e.now)
  {
    hide Answer, StopPower, OrderOk, Progress, TallyOf, TcpSender.Sound;
  }

  lemma IsoMeteringFine(t: State, e: Env)
    requires Good(t)
    ensures Fine(t, IsoMetering(t, e), e.now) && IsoMetering(t, e).phase == t.phase
    ensures IsoMetering(t, e).protocol == t.protocol
  {
    hide Answer, ReportStatus, OrderOk, Progress, TallyOf, TcpSender.Sound;
  }

  lemma WatchdogFine(t: State, r: State, p: Phase, now: u32)
    requires Fine(t, r, now)
    ensures Fine(t, StartWatchdog(r, p, now), now)
  {
    hide StartWatchdog, OrderOk, Progress, TallyOf, TcpSender.Sound;
  }

  lemma IsoAuthorizationFine(t: State, e: Env)
    requires Good(t) && t.phase == ForAuthorization && t.protocol == Iso2
    ensures Fine(t, IsoAuthorization(t, e), e.now)
    ensures Fine(t, Answer(t, PaymentDetails, true, e.enc, e.now).(detailsDone := true, expectDetails := false), e.now)
  {
    hide Answer, OrderOk, Progress, TallyOf, TcpSender.Sound, AdvanceIso;
    AdvanceIsoFine(t, Authorization, ForChargeParameter, e);
  }

  // ---------------------------------------------------------------- DIN requests

  lemma AdvanceDinFine(t: State, m: Msg, next: Phase, e: Env)
    requires Good(t) && !t.charging
    requires DinTable(t.phase) == Some((m, next)) ||
             (t.phase == ForPaymentSelection && m == PaymentSelection && next == ForAuthorization) ||
             (t.phase == ForPowerDelivery && m == PreCharge && next == ForPowerDelivery)
    ensures Fine(t, AdvanceDin(t, m, next, e), e.now)
  {
    hide Answer, ReportStatus, OrderOk, Progress, TallyOf, TcpSender.Sound;
  }

  lemma DinOffEffect(t: State, relay: Relay, next: Phase)
    requires DcCan.Sound(t.dc) && OrderOk(t.log) && Progress(t.log) == COMPLETE
    ensures Powered(t, t.(charging := false, dc := EnableOutput(t.dc, false), relay := relay), next)
  {
    hide EnableOutput, OrderOk, Progress, TallyOf, DcCan.Sound;
  }

  lemma DinPowerEffect(t: State, e: Env)
    requires Good(t) && Progress(t.log) == COMPLETE
    ensures var (p, ok) := DinPower(t, e);
            && Powered(t, p, if t.dinDoc.ready && ok then ForCurrentDemand else ForSessionStop)
            && p.dinDoc == t.dinDoc
  {
    hide DcOutputOn, OrderOk, Progress, TallyOf, TcpSender.Sound, Drive, EnableOutput, DcCan.Sound;
    DriveCloses(t.relay, e.before, e.after);
    var relay := Drive(t.relay, true, e.before, e.after).0;
    StartEffect(t, relay);
    DinOffEffect(t, relay, ForSessionStop);
    DinOffEffect(t, Drive(t.relay, false, e.openBefore, false).0, ForSessionStop);
  }

  lemma DinPowerFine(t: State, e: Env)
    requires Good(t) && Progress(t.log) == COMPLETE && t.phase != ForAppProtocol
    ensures Fine(t, AnswerDinPower(t, e), e.now)
  {
    hide Answer, ReportStatus, OrderOk, Progress, TallyOf, TcpSender.Sound, DinPower, DcCan.Sound;
    DinPowerEffect(t, e);
  }

  lemma DinCurrentDemandFine(t: State, e: Env)
    requires Good(t) && t.phase == ForCurrentDemand
    ensures Fine(t, DinCurrentDemand(t, e), e.now)
  {
    hide Answer, ReportStatus, OrderOk, Progress, TallyOf, TcpSender.Sound, Drive, EnableOutput, SetTargets, DcCan.Sound;
  }

  lemma DinMeteringFine(t: State, e: Env)
    requires Good(t)
    ensures Fine(t, DinMetering(t, e), e.now)
  {
    hide Answer, OrderOk, Progress, TallyOf, TcpSender.Sound;
  }

  lemma DinLatePowerFine(t: State, e: Env)
    requires Good(t) && t.phase == ForSessionStop
    ensures Fine(t, DinLatePower(t, e), e.now)
  {
    hide Answer, OrderOk, Progress, TallyOf, TcpSender.Sound;
  }

  lemma DinStopFine(t: State, e: Env)
    requires Good(t) && t.phase == ForSessionStop
    ensures Fine(t, Answer(t, SessionStop, true, e.enc, e.now).(charging := false, phase := ForAppProtocol), e.now)
  {
    hide Answer, OrderOk, Progress, TallyOf, TcpSender.Sound;
  }

  /** What a good state's phase already tells. */
  lemma GoodPhase(t: State, now: u32)
    requires Good(t)
    ensures Fine(t, t, now)
    ensures t.phase != ForCurrentDemand ==> !t.charging && !t.dc.enabled
    ensures t.phase == ForPowerDelivery || t.phase == ForCurrentDemand || t.phase == ForSessionStop
            ==> Progress(t.log) == COMPLETE
  {
    hide OrderOk, Progress, TallyOf, TcpSender.Sound;
  }

  lemma DinFine(t: State, e: Env)
    requires Good(t)
    ensures Fine(t, OnDin(t, e), e.now)
  {
    hide Answer, AnswerDinPower, AdvanceDin, DinCurrentDemand, DinMetering, DinLatePower, Good, Fine, Progress;
    GoodPhase(t, e.now);
    match t.phase
    case ForAppProtocol =>
    case ForPaymentSelection => AdvanceDinFine(t, PaymentSelection, ForAuthorization, e);
    case ForPowerDelivery =>
      AdvanceDinFine(t, PreCharge, ForPowerDelivery, e);
      DinPowerFine(t, e);
    case ForCurrentDemand =>
      DinPowerFine(t, e);
      DinCurrentDemandFine(t, e);
      DinMeteringFine(t, e);
    case ForSessionStop =>
      DinMeteringFine(t, e);
      DinStopFine(t, e);
      DinLatePowerFine(t, e);
    case _ => AdvanceDinFine(t, DinTable(t.phase).value.0, DinTable(t.phase).value.1, e);
  }

  lemma FineTrans(t: State, r: State, q: State, now: u32)
    requires Fine(t, r, now) && Fine(r, q, now)
    ensures Fine(t, q, now)
  {
    hide Good, Watched;
  }

  lemma IsoFine(t: State, e: Env)
    requires Good(t) && t.protocol == Iso2
    ensures Fine(t, OnIso(t, e), e.now)
  {
    hide Answer, AnswerIsoPower, AdvanceIso, IsoCurrentDemand, IsoMetering, IsoPayment, IsoStop,
         IsoAuthorization, StartWatchdog, OnDin, Good, Fine, Progress;
    GoodPhase(t, e.now);
    DinFine(t, e);
    if t.phase == ForCurrentDemand || t.phase == ForSessionStop {
      IsoMeteringFine(t, e);
      FineGood(t, IsoMetering(t, e), e.now);
      DinFine(IsoMetering(t, e), SecondReadings(e));
      FineTrans(t, IsoMetering(t, e), OnDin(IsoMetering(t, e), SecondReadings(e)), e.now);
    }
    match t.phase
    case ForAppProtocol =>
    case ForPaymentSelection => IsoPaymentFine(t, e);
    case ForAuthorization => IsoAuthorizationFine(t, e);
    case ForPowerDelivery =>
      IsoPowerFine(t, e);
      WatchdogFine(t, AnswerIsoPower(t, e), AnswerIsoPower(t, e).phase, e.now);
    case ForCurrentDemand =>
      IsoPowerFine(t, e);
      IsoCurrentDemandFine(t, e);
    case ForSessionStop =>
      IsoPowerFine(t, e);
      IsoStopFine(t, e);
    case _ => AdvanceIsoFine(t, IsoTable(t.phase).value.0, IsoTable(t.phase).value.1, e);
  }

  lemma FineGood(t: State, r: State, now: u32)
    requires Fine(t, r, now)
    ensures Good(r)
  {
  }

  // ---------------------------------------------------------------- handshake and frames

  /** Everything Fine says except how the watchdog fares, which depends on the encoder. */
  predicate NearlyFine(t: State, r: State, now: u32) {
    && Good(r)
    && r.tx.tcp == t.tx.tcp
    && (r.tx.awaiting ==> t.tx.awaiting || t.tx.tcp == Established)
    && r.wd.timeout == t.wd.timeout && r.wd.maxRetries == t.wd.maxRetries
    && (t.wd.retries == 0 ==> r.wd.retries == 0)
    && ArmedAt(t, r, now)
  }

  /** The phases a handshake can be in. */
  predicate Opening(t: State) {
    !t.charging && (t.phase == ForAppProtocol || t.phase == ForSessionSetup)
  }

  lemma OneAppFine(t: State, a: App, now: u32)
    requires Good(t) && Opening(t)
    ensures var r := OneApp(t, a, now);
            && NearlyFine(t, r, now) && Opening(r)
            && (Watched(t) && (a.scheme == Iso2Scheme ==> a.enc.Some?) ==> Watched(r))
  {
    hide Answer, StartWatchdog, OrderOk, Progress, TallyOf, TcpSender.Sound;
  }

  /** Every ISO schema on offer can be answered. */
  predicate Encodable(apps: seq<App>) {
    forall k :: 0 <= k < |apps| && apps[k].scheme == Iso2Scheme ==> apps[k].enc.Some?
  }

  lemma {:induction false} HandshakeFine(t: State, apps: seq<App>, now: u32)
    requires Good(t) && Opening(t)
    ensures var r := Handshake(t, apps, now);
            NearlyFine(t, r, now) && (Watched(t) && Encodable(apps) ==> Watched(r))
    decreases |apps|
  {
    if apps == [] {
      GoodPhase(t, now);
    } else {
      hide OneApp, Good, Watched;
      OneAppFine(t, apps[0], now);
      HandshakeFine(OneApp(t, apps[0], now), apps[1..], now);
    }
  }

  lemma DecodeFine(t: State, d: Decoded, now: u32)
    requires Good(t)
    ensures var s := Decode(t, d); Fine(t, s, now) && s.phase == t.phase && s.protocol == t.protocol
  {
    hide OrderOk, Progress, TallyOf, TcpSender.Sound;
  }

  lemma RxFine(t: State, r: State, now: u32)
    requires NearlyFine(t, r, now)
    ensures NearlyFine(t, r.(rx := []), now) && (Watched(r) ==> Watched(r.(rx := [])))
  {
    hide OrderOk, Progress, TallyOf, TcpSender.Sound;
  }

  lemma FrameFine(t: State, d: Decoded, e: Env)
    requires Good(t)
    ensures var r := OnFrame(t, d, e);
            && NearlyFine(t, r, e.now) && r.rx == []
            && (Watched(t) && (t.phase == ForAppProtocol ==> Encodable(d.apps)) ==> Watched(r))
  {
    hide OnIso, OnDin, Handshake, Good, Watched, Decode;
    var s := Decode(t, d);
    DecodeFine(t, d, e.now);
    RxFine(t, s, e.now);
    GoodPhase(s, e.now);
    if d.ok {
      if s.phase == ForAppProtocol {
        HandshakeFine(s, d.apps, e.now);
        RxFine(t, Handshake(s, d.apps, e.now), e.now);
      } else if s.protocol == Iso2 {
        IsoFine(s, e);
        RxFine(t, OnIso(s, e), e.now);
      } else {
        DinFine(s, e);
        RxFine(t, OnDin(s, e), e.now);
      }
    }
  }

  // ---------------------------------------------------------------- transport steps

  /** The handshakes of one call can all be answered. */
  ghost predicate OracleEncodable(o: Oracle) {
    forall n: nat :: Encodable(o(n).d.apps)
  }

  /** Every frame of one call is handled at the same clock reading. */
  ghost predicate OracleClocked(o: Oracle, now: u32) {
    forall n: nat :: o(n).e.now == now
  }

  /** What a step may rely on: handshakes encode, and the clock stands at `now` throughout. */
  datatype Quality = Quality(encodable: bool, clocked: bool, now: u32)

  function Sure(now: u32): Quality {
    Quality(true, true, now)
  }

  function Both(a: Quality, b: Quality): Quality {
    Quality(a.encodable && b.encodable, a.clocked && b.clocked, a.now)
  }

  ghost function Given(o: Oracle, now: u32): Quality {
    Quality(OracleEncodable(o), OracleClocked(o, now), now)
  }

  /** A step of the transport: good stays good; watched stays watched when handshakes encode; and the
      watchdog's start is on record when the clock stands. */
  predicate StepFine(t: State, r: State, q: Quality) {
    && Good(r)
    && (Watched(t) && q.encodable ==> Watched(r))
    && r.wd.timeout == t.wd.timeout && r.wd.maxRetries == t.wd.maxRetries
    && (t.wd.retries == 0 ==> r.wd.retries == 0)
    && (q.clocked ==> ArmedAt(t, r, q.now))
  }

  lemma ResetFine(t: State, openBefore: bool, now: u32)
    requires Good(t)
    ensures StepFine(t, ResetSession(t, openBefore), Sure(now)) && Watched(ResetSession(t, openBefore))
  {
    hide ResetSession, OrderOk, Progress;
  }

  lemma {:induction false} FramesFine(t: State, n: nat, o: Oracle, now: u32)
    requires Good(t)
    ensures var r := OnFrames(t, n, o);
            && StepFine(t, r, Given(o, now))
            && r.tx.tcp == t.tx.tcp && (r.tx.awaiting ==> t.tx.awaiting || t.tx.tcp == Established)
  {
    if n == 0 {
      GoodPhase(t, now);
    } else {
      hide Good, Watched, OnFrame, Encodable;
      FramesFine(t, n - 1, o, now);
      FrameFine(OnFrames(t, n - 1, o), o(n - 1).d, o(n - 1).e);
    }
  }

  /** Changes outside the dialogue state. */
  lemma OnlyTransport(t: State, x: Sender, rx: Data, activity: u32, now: u32)
    requires Good(t) && TcpSender.Sound(x)
    ensures StepFine(t, t.(tx := x, rx := rx, lastActivity := activity), Sure(now))
  {
    hide OrderOk, Progress, TallyOf, TcpSender.Sound;
  }

  lemma StepTrans(t: State, r: State, q: State, a: Quality, b: Quality)
    requires StepFine(t, r, a) && StepFine(r, q, b) && a.now == b.now
    ensures StepFine(t, q, Both(a, b))
  {
    hide Good, Watched;
  }

  lemma HandledFine(t: State, d: V2gtp.Deframed, o: Oracle, openBefore: bool, now: u32)
    requires Good(t)
    ensures StepFine(t, HandleDeframed(t, d, o, openBefore), Given(o, now))
  {
    hide OnFrames, ResetSession, Good, Watched, OracleEncodable;
    FramesFine(t, |d.frames|, o, now);
    var p := OnFrames(t, |d.frames|, o);
    ResetFine(p, openBefore, now);
    GoodSender(p);
    OnlyTransport(p, p.tx, d.rest, p.lastActivity, now);
  }

  lemma PayloadFine(t: State, payload: Data, o: Oracle, openBefore: bool, now: u32)
    requires Good(t)
    ensures StepFine(t, BufferPayload(t, payload, o, openBefore), Given(o, now))
  {
    hide HandleDeframed, ResetSession, Good, Watched, OracleEncodable, OracleClocked, V2gtp.Deframe, V2gtp.Accept;
    GoodPhase(t, now);
    ResetFine(t, openBefore, now);
    var d := V2gtp.Deframe(V2gtp.Accept(t.rx, payload));
    HandledFine(t, d, o, openBefore, now);
  }

  lemma GoodSender(t: State)
    requires Good(t)
    ensures TcpSender.Sound(t.tx)
  {
  }

  lemma PutControl(x: Sender, w: Wire)
    requires TcpSender.Sound(x) && (w.AckSent? || w.SynAckSent?)
    ensures TcpSender.Sound(Put(x, w))
  {
  }

  lemma AckSound(x: Sender, remoteAck: u32)
    requires TcpSender.Sound(x)
    ensures TcpSender.Sound(OnAck(x, remoteAck))
  {
  }

  lemma DataFine(t: State, s: Seg, o: Oracle, openBefore: bool, now: u32)
    requires Good(t)
    ensures StepFine(t, OnData(t, s, o, openBefore), Given(o, now))
  {
    hide BufferPayload, Put, Good, Watched, OracleEncodable;
    GoodSender(t);
    var x := t.tx.(ackNr := (s.seqNr + |s.payload|) % TWO32, seqNr := s.ackNr);
    var w := AckSent(x.seqNr, x.ackNr);
    PutControl(x, w);
    OnlyTransport(t, Put(x, w), t.rx, t.lastActivity, now);
    var t1 := t.(tx := Put(x, w));
    PayloadFine(t1, s.payload, o, openBefore, now);
    StepTrans(t, t1, BufferPayload(t1, s.payload, o, openBefore), Sure(now), Given(o, now));
  }

  lemma CloseFine(t: State, openBefore: bool, now: u32)
    requires Good(t)
    ensures StepFine(t, Close(t, openBefore), Sure(now))
  {
    hide ResetSession, Good, Watched;
    GoodSender(t);
    var x := t.tx.(tcp := Closed);
    OnlyTransport(t, x, t.rx, t.lastActivity, now);
    ResetFine(t.(tx := x), openBefore, now);
  }

  lemma FinFine(t: State, s: Seg, openBefore: bool, now: u32)
    requires Good(t)
    ensures StepFine(t, OnFin(t, s, openBefore), Sure(now))
  {
    hide Close, Put, Good, Watched;
    GoodSender(t);
    var x := t.tx.(ackNr := (s.seqNr + |s.payload| + 1) % TWO32);
    var w := AckSent(x.seqNr, x.ackNr);
    PutControl(x, w);
    OnlyTransport(t, Put(x, w), t.rx, t.lastActivity, now);
    CloseFine(t.(tx := Put(x, w)), openBefore, now);
    StepTrans(t, t.(tx := Put(x, w)), OnFin(t, s, openBefore), Sure(now), Sure(now));
  }

  lemma EstablishedFine(t: State, s: Seg, o: Oracle, openBefore: bool, now: u32)
    requires Good(t)
    ensures StepFine(t, OnEstablished(t, s, o, openBefore), Given(o, now))
  {
    hide OnData, OnFin, ResetSession, OnAck, Good, Watched, OracleEncodable;
    GoodPhase(t, now);
    ResetFine(t, openBefore, now);
    DataFine(t, s, o, openBefore, now);
    var t1 := if s.payload != [] then OnData(t, s, o, openBefore) else t;
    assert Good(t1) && StepFine(t, t1, Given(o, now));
    GoodSender(t1);
    AckSound(t1.tx, s.ackNr);
    OnlyTransport(t1, OnAck(t1.tx, s.ackNr), t1.rx, t1.lastActivity, now);
    OnlyTransport(t1, t1.tx, t1.rx, t1.lastActivity, now);
    var t2 := if s.ack then t1.(tx := OnAck(t1.tx, s.ackNr)) else t1;
    StepTrans(t, t1, t2, Given(o, now), Sure(now));
    FinFine(t2, s, openBefore, now);
    StepTrans(t, t2, OnFin(t2, s, openBefore), Given(o, now), Sure(now));
  }

  lemma SegmentFine(t: State, s: Seg, o: Oracle, e: Env)
    requires Good(t)
    ensures StepFine(t, OnSegment(t, s, o, e), Given(o, e.now))
  {
    hide OnEstablished, Close, Good, Watched, OracleEncodable, OnSyn, TcpSender.Sound;
    GoodPhase(t, e.now);
    GoodSender(t);
    var t1 := t.(lastActivity := e.now);
    OnlyTransport(t, t.tx, t.rx, e.now, e.now);
    if s.rst {
      CloseFine(t1, e.openBefore, e.now);
      StepTrans(t, t1, Close(t1, e.openBefore), Sure(e.now), Sure(e.now));
    } else if s.syn && !s.ack {
      SynSound(t.tx, s);
      OnlyTransport(t, OnSyn(t.tx, s), t.rx, e.now, e.now);
    } else if t.tx.tcp == Established {
      EstablishedFine(t1, s, o, e.openBefore, e.now);
      StepTrans(t, t1, OnEstablished(t1, s, o, e.openBefore), Sure(e.now), Given(o, e.now));
    } else {
      EstablishSound(t.tx);
      OnlyTransport(t, t.tx.(tcp := Established), t.rx, e.now, e.now);
    }
  }

  lemma EstablishSound(x: Sender)
    requires TcpSender.Sound(x)
    ensures TcpSender.Sound(x.(tcp := Established))
  {
  }

  lemma SynSound(x: Sender, s: Seg)
    requires TcpSender.Sound(x)
    ensures TcpSender.Sound(OnSyn(x, s))
  {
  }

  lemma RetryFine(t: State, e: Env)
    requires Good(t)
    ensures StepFine(t, RetryStage(t, e), Sure(e.now))
  {
    hide Close, Good, Watched, Retransmit;
    GoodPhase(t, e.now);
    GoodSender(t);
    CloseFine(t, e.openBefore, e.now);
    if RetryDue(t, e.now) && t.tx.attempts < MAX_RETRANSMIT {
      RetrySound(t.tx, e.now);
      OnlyTransport(t, Retransmit(t.tx.(attempts := t.tx.attempts + 1), e.now), t.rx, t.lastActivity, e.now);
    }
  }

  lemma WatchdogOnly(t: State, wd: Watchdog)
    requires Good(t)
    ensures Good(t.(wd := wd))
  {
    hide OrderOk, Progress, TallyOf, TcpSender.Sound;
  }

  lemma WatchdogStageFine(t: State, e: Env)
    requires Good(t)
    ensures StepFine(t, WatchdogStage(t, e), Sure(e.now))
  {
    hide Good, Watched, ResetSession, Expired;
    GoodPhase(t, e.now);
    var t1 := t.(wd := Check(t.wd, e.now).0);
    WatchdogOnly(t, t1.wd);
    ResetFine(t1, e.openBefore, e.now);
    TransportResetFine(ResetSession(t1, e.openBefore), e);
  }

  lemma TickFine(t: State, e: Env)
    requires Good(t)
    ensures StepFine(t, TcpTick(t, e), Sure(e.now))
  {
    hide RetryStage, WatchdogStage, Close, Good, Watched;
    GoodPhase(t, e.now);
    RetryFine(t, e);
    var t1 := RetryStage(t, e);
    CloseFine(t1, e.openBefore, e.now);
    GoodPhase(t1, e.now);
    StepTrans(t, t1, IdleStage(t1, e), Sure(e.now), Sure(e.now));
    var t2 := if t.tx.tcp == Established then IdleStage(t1, e) else t;
    WatchdogStageFine(t2, e);
    StepTrans(t, t2, WatchdogStage(t2, e), Sure(e.now), Sure(e.now));
  }

  lemma PilotFine(t: State, connected: bool, openBefore: bool, now: u32)
    requires Good(t)
    ensures var r := CpCheck(t, connected, openBefore);
            StepFine(t, r, Sure(now)) && (!connected ==> !r.dc.enabled && !r.relay.cmd)
  {
    hide OrderOk, Progress, TallyOf, TcpSender.Sound;
  }

  lemma DcTickFine(t: State, now: u32)
    requires Good(t)
    ensures StepFine(t, t.(dc := RampTick(t.dc, now)), Sure(now))
  {
    hide OrderOk, Progress, TallyOf, TcpSender.Sound;
  }

  lemma TransportResetFine(t: State, e: Env)
    requires Good(t)
    ensures StepFine(t, TransportReset(t, e), Sure(e.now))
  {
    hide ResetSession, OrderOk, Progress;
  }

  /** Handshakes met in this event can be answered. */
  ghost predicate EventEncodable(ev: Event) {
    match ev
    case Packet(_, o, _) => OracleEncodable(o)
    case SocketData(_, o, _) => OracleEncodable(o)
    case _ => true
  }

  /** Every clock reading of this event is `now`. */
  ghost predicate EventClocked(ev: Event, now: u32) {
    match ev
    case Packet(_, o, e) => OracleClocked(o, now) && e.now == now
    case SocketData(_, o, e) => OracleClocked(o, now) && e.now == now
    case TransportClosed(e) => e.now == now
    case TransportOpened(e) => e.now == now
    case Tick(e) => e.now == now
    case SocketSender(_) => true
    case Pilot20ms(_, _) => true
    case DcTick(n) => n == now
  }

  ghost function EventGiven(ev: Event, now: u32): Quality {
    Quality(EventEncodable(ev), EventClocked(ev, now), now)
  }

  /** Without a standing clock nothing is claimed about the watchdog's start. */
  lemma Unclocked(t: State, r: State, q: Quality, now: u32)
    requires StepFine(t, r, q)
    ensures StepFine(t, r, Quality(q.encodable, false, now))
  {
    hide Good, Watched;
  }

  lemma StepGoodAt(t: State, ev: Event, now: u32)
    requires Good(t) && EventClocked(ev, now)
    ensures StepFine(t, Step(t, ev), EventGiven(ev, now))
  {
    hide OnSegment, BufferPayload, TcpTick, CpCheck, TransportReset, Good, Watched,
         OracleEncodable, OracleClocked, RampTick;
    GoodSender(t);
    match ev
    case Packet(s, o, e) => SegmentFine(t, s, o, e);
    case SocketData(p, o, e) =>
      var t1 := t.(lastActivity := e.now);
      OnlyTransport(t, t.tx, t.rx, e.now, now);
      PayloadFine(t1, p, o, e.openBefore, now);
      StepTrans(t, t1, BufferPayload(t1, p, o, e.openBefore), Sure(now), Given(o, now));
    case SocketSender(on) => OnlyTransport(t, t.tx.(socket := on), t.rx, t.lastActivity, now);
    case TransportClosed(e) => TransportResetFine(t, e);
    case TransportOpened(e) => OnlyTransport(t, t.tx.(tcp := Established), t.rx, e.now, now);
    case Tick(e) => TickFine(t, e);
    case Pilot20ms(c, openBefore) => PilotFine(t, c, openBefore, now);
    case DcTick(n) => DcTickFine(t, n);
  }

  lemma StepGoodUnclocked(t: State, ev: Event, now: u32)
    requires Good(t) && EventClocked(ev, now)
    ensures StepFine(t, Step(t, ev), Quality(EventEncodable(ev), false, 0))
  {
    hide Step, Good, Watched, EventEncodable;
    StepGoodAt(t, ev, now);
    Unclocked(t, Step(t, ev), EventGiven(ev, now), 0);
  }

  lemma StepGood(t: State, ev: Event)
    requires Good(t)
    ensures StepFine(t, Step(t, ev), Quality(EventEncodable(ev), false, 0))
    ensures ev.Pilot20ms? && !ev.connected ==> !Step(t, ev).dc.enabled && !Step(t, ev).relay.cmd
  {
    hide OnSegment, BufferPayload, TcpTick, CpCheck, TransportReset, Good, Watched,
         OracleEncodable, OracleClocked, RampTick;
    match ev
    case Packet(s, o, e) =>
      SegmentFine(t, s, o, e);
      Unclocked(t, Step(t, ev), Given(o, e.now), 0);
    case SocketData(p, o, e) =>
      var t1 := t.(lastActivity := e.now);
      GoodSender(t);
      OnlyTransport(t, t.tx, t.rx, e.now, e.now);
      PayloadFine(t1, p, o, e.openBefore, e.now);
      StepTrans(t, t1, BufferPayload(t1, p, o, e.openBefore), Sure(e.now), Given(o, e.now));
      Unclocked(t, Step(t, ev), Given(o, e.now), 0);
    case Pilot20ms(c, openBefore) =>
      PilotFine(t, c, openBefore, 0);
      Unclocked(t, Step(t, ev), Sure(0), 0);
    case TransportClosed(e) => StepGoodUnclocked(t, ev, e.now);
    case TransportOpened(e) => StepGoodUnclocked(t, ev, e.now);
    case Tick(e) => StepGoodUnclocked(t, ev, e.now);
    case SocketSender(_) => StepGoodUnclocked(t, ev, 0);
    case DcTick(n) => StepGoodUnclocked(t, ev, n);
  }

  // ---------------------------------------------------------------- whole runs

  ghost predicate PoweredUp(b: State) {
    exists w, c, p, tmo, n :: b == Boot(w, c, p, tmo, n)
  }

  lemma {:induction false} RunGood(b: State, es: seq<Event>)
    requires PoweredUp(b)
    ensures Good(Run(b, es)) && Run(b, es).wd.retries == 0
    ensures Run(b, es).wd.timeout == b.wd.timeout && Run(b, es).wd.maxRetries == b.wd.maxRetries
    ensures (forall k :: 0 <= k < |es| ==> EventEncodable(es[k])) ==> Watched(Run(b, es))
  {
    if es != [] {
      var p, ev := es[..|es| - 1], es[|es| - 1];
      RunGood(b, p);
      assert forall k :: 0 <= k < |p| ==> p[k] == es[k];
      hide Step, Good, Watched, EventEncodable;
      StepGood(Run(b, p), ev);
    }
  }

  /** Power safety over whole runs: after every event of every run from power-up, DC output on implies
      charging, the current-demand phase and a contactor commanded closed; a disabled output has both
      setpoints at zero; and a pilot check without a vehicle leaves output and contactor off. */
  lemma PowerSafety(b: State, es: seq<Event>)
    requires PoweredUp(b)
    ensures var t := Run(b, es);
            && (t.dc.enabled ==> t.charging && t.phase == ForCurrentDemand && t.relay.cmd)
            && (t.charging ==> t.phase == ForCurrentDemand)
            && (!t.dc.enabled ==> t.dc.vSet == 0.0 && t.dc.iSet == 0.0)
    ensures es != [] && es[|es| - 1].Pilot20ms? && !es[|es| - 1].connected ==>
              !Run(b, es).dc.enabled && !Run(b, es).relay.cmd
  {
    RunGood(b, es);
    if es != [] {
      var p := es[..|es| - 1];
      RunGood(b, p);
      StepGood(Run(b, p), es[|es| - 1]);
    }
  }

  // ---------------------------------------------------------------- phase order

  /** A session boundary in the log. */
  predicate Boundary(a: Act) {
    a == Reset || (a.Reply? && (a.msg == SessionStop || (a.msg == AppProtocol && a.sent)))
  }

  predicate Answered(a: Act, m: Msg) {
    a.Reply? && a.msg == m
  }

  /** The step of the dialogue that completes a stage. */
  function StepOf(stage: nat): Msg {
    match stage
    case 2 => SessionSetup
    case 3 => ServiceDiscovery
    case 4 => PaymentSelection
    case 5 => Authorization
    case 6 => ChargeParameter
    case 7 => CableCheck
    case _ => PreCharge
  }

  /** The first n entries end in a session in which the steps up to `stage` were answered in order, at the
      positions m: no session boundary since the first of them, the sixth stage's step the latest
      ChargeParameterDiscovery, and every step but that one answered positively. */
  predicate Climbed(log: seq<Act>, n: nat, m: seq<nat>, stage: nat)
    requires n <= |log|
  {
    && |m| == (if stage == 0 then 0 else stage - 1)
    && (forall q :: 0 <= q < |m| ==> m[q] < n && Answered(log[m[q]], StepOf(q + 2))
                                     && (q != 4 ==> log[m[q]].positive))
    && (forall q, r :: 0 <= q < r < |m| ==> m[q] < m[r])
    && (|m| > 0 ==> forall k :: m[0] <= k < n ==> !Boundary(log[k]))
    && (|m| > 4 ==> forall k :: m[4] < k < n ==> !Answered(log[k], ChargeParameter))
  }

  lemma ProgressStep(log: seq<Act>, n: nat)
    requires 0 < n <= |log|
    ensures Progress(log[..n]) == Advance(Progress(log[..n - 1]), log[n - 1])
  {
    assert log[..n][..n - 1] == log[..n - 1];
  }

  /** An entry that completes no step leaves the positions as they are. */
  lemma ClimbStays(log: seq<Act>, n: nat, m: seq<nat>, stage: nat)
    requires n < |log| && Climbed(log, n, m, stage) && !Boundary(log[n])
    requires stage > 5 ==> !Answered(log[n], ChargeParameter)
    ensures Climbed(log, n + 1, m, stage)
  {
  }

  lemma ClimbOn(log: seq<Act>, n: nat, m: seq<nat>, stage: nat)
    requires n < |log| && Climbed(log, n, m, stage) && 1 <= stage < COMPLETE
    requires Answered(log[n], StepOf(stage + 1)) && (stage != 5 ==> log[n].positive)
    ensures Climbed(log, n + 1, m + [n], stage + 1)
  {
  }

  /** A repeated ChargeParameterDiscovery takes the place of the earlier one. */
  lemma ClimbBack(log: seq<Act>, n: nat, m: seq<nat>, stage: nat)
    requires n < |log| && Climbed(log, n, m, stage) && 5 <= stage <= COMPLETE
    requires Answered(log[n], ChargeParameter)
    ensures Climbed(log, n + 1, m[..4] + [n], 6)
  {
  }

  /** What the monitor's stage stands for. */
  lemma {:induction false} ProgressMeans(log: seq<Act>, n: nat) returns (m: seq<nat>)
    requires n <= |log|
    ensures Progress(log[..n]) <= COMPLETE && Climbed(log, n, m, Progress(log[..n]))
  {
    m := [];
    if n > 0 {
      hide Progress, Climbed;
      var prev := ProgressMeans(log, n - 1);
      ProgressStep(log, n);
      var p, a := Progress(log[..n - 1]), log[n - 1];
      if Boundary(a) {
        NewSession(log, n, Advance(p, a));
      } else if Answered(a, ChargeParameter) && p >= 5 {
        ClimbBack(log, n - 1, prev, p);
        m := prev[..4] + [n - 1];
      } else if a.Reply? && a.positive && Stage(a.msg) == p + 1 {
        StageStep(a.msg);
        ClimbOn(log, n - 1, prev, p);
        m := prev + [n - 1];
      } else {
        ClimbStays(log, n - 1, prev, p);
        m := prev;
      }
    }
  }

  lemma NewSession(log: seq<Act>, n: nat, stage: nat)
    requires n <= |log| && stage <= 1
    ensures Climbed(log, n, [], stage)
  {
  }

  lemma StageStep(m: Msg)
    ensures Stage(m) > 0 ==> StepOf(Stage(m)) == m && 2 <= Stage(m) <= COMPLETE
  {
  }

  /** Phase order over whole runs: every step that switches the DC output on is preceded, in the same
      session, by positive answers to SessionSetup, ServiceDiscovery, payment selection and authorization in
      this order, then by the latest ChargeParameterDiscovery, then a CableCheck, then a PreCharge;
      renegotiation, late PowerDelivery and left-over documents included. */
  lemma PhaseOrder(b: State, es: seq<Event>, n: nat) returns (m: seq<nat>)
    requires PoweredUp(b) && n < |Run(b, es).log| && Run(b, es).log[n] == DcOn
    ensures Climbed(Run(b, es).log, n, m, COMPLETE)
  {
    hide Climbed, Progress;
    RunGood(b, es);
    m := ProgressMeans(Run(b, es).log, n);
  }
}
