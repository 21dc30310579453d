/** The other side of the watchdog: which requests restart it, and that a vehicle which keeps asking for
    current is never cut off by it. */
module HlcWatch {
  import opened Bytes
  import opened CpControl
  import opened DcCan
  import opened IsoWatchdog
  import opened TcpSender
  import opened Hlc
  import opened TcpLink
  import opened HlcSafety
  import opened HlcFindings
  import opened HlcDeadline
  import opened HlcTargets
  import HlcAnswers
  import opened TcpTransport
  import V2gtp

  // ---------------------------------------------------------------- which requests restart it

  /** The requests of an ISO session that restart the watchdog: each phase's own, answered positively. Payment
      details, metering receipts, a PowerDelivery once charging has begun, and all that comes after do not. */
  predicate Arms(t: State) {
    var used := t.isoDoc.used;
    t.protocol == Iso2 &&
    match t.phase
    case ForAppProtocol => false
    case ForSessionSetup => SessionSetup in used
    case ForServiceDiscovery => ServiceDiscovery in used
    case ForPaymentSelection => PaymentSelection in used && t.isoDoc.payment != OtherPayment
    case ForAuthorization => PaymentDetails !in used && Authorization in used && (t.detailsDone || !t.expectDetails)
    case ForChargeParameter => ChargeParameter in used
    case ForCableCheck => CableCheck in used
    case ForPreCharge => PreCharge in used
    case ForPowerDelivery => PowerDelivery in used
    case ForCurrentDemand => PowerDelivery !in used && CurrentDemand in used
    case ForSessionStop => false
  }

  /** The time of the last activity is kept, or cleared by a session reset, which is on record. */
  predicate KeepsActivity(t: State, r: State) {
    var before, after := TallyOf(t.log).resets, TallyOf(r.log).resets;
    && before <= after
    && r.lastActivity == (if before < after then 0 else t.lastActivity)
  }

  /** From t to r the watchdog was restarted once, for the phase that follows, or else not at all; a session
      reset is the one thing besides that touches it. */
  predicate Rearms(t: State, r: State, arms: bool, now: u32) {
    && TallyOf(r.log).arms == TallyOf(t.log).arms + (if arms then 1 else 0)
    && (if arms then r.wd == Start(t.wd, PhaseNr(r.phase), now) else r.wd == t.wd || !r.wd.active)
    && KeepsActivity(t, r)
  }

  /** Neither watchdog nor last activity were touched, and neither is on record as such. */
  predicate Untouched(t: State, r: State) {
    && r.wd == t.wd && r.lastActivity == t.lastActivity
    && TallyOf(r.log).arms == TallyOf(t.log).arms && TallyOf(r.log).resets == TallyOf(t.log).resets
  }

  lemma NotTouched(t: State, r: State, now: u32)
    requires Untouched(t, r)
    ensures Rearms(t, r, false, now)
  {
    hide TallyOf;
  }

  lemma AnswerRearms(t: State, m: Msg, positive: bool, enc: Option<Data>, now: u32)
    ensures Rearms(t, Answer(t, m, positive, enc, now), false, now)
  {
    hide Answer, TallyOf;
  }

  /** Starting the watchdog of an ISO session after a step that left it alone. */
  lemma StartRearms(t: State, r: State, p: Phase, now: u32)
    requires Untouched(t, r) && r.protocol == Iso2 && r.phase == p
    ensures Rearms(t, StartWatchdog(r, p, now), true, now)
  {
    hide StartWatchdog, TallyOf;
  }

  lemma AdvanceRearms(t: State, m: Msg, next: Phase, e: Env)
    ensures Rearms(t, AdvanceDin(t, m, next, e), false, e.now)
    ensures t.protocol == Iso2 ==> Rearms(t, AdvanceIso(t, m, next, e), true, e.now)
  {
    hide Answer, ReportStatus, StartWatchdog, TallyOf, Rearms;
    var r := Answer(if CarriesStatus(m) then ReportStatus(t, e.status) else t, m, true, e.enc, e.now);
    NotTouched(t, AdvanceDin(t, m, next, e), e.now);
    if t.protocol == Iso2 {
      StartRearms(t, r.(phase := next), next, e.now);
    }
  }

  lemma IsoPowerWatch(t: State, e: Env)
    ensures var p := IsoPower(t, t.isoDoc.progress, e).0;
            Untouched(t, p) && p.protocol == t.protocol
  {
    hide DcOutputOn, StopPower, Drive, TallyOf;
    var moved := t.(relay := Drive(t.relay, true, e.before, e.after).0);
    OnWatch(moved);
    StopWatch(moved, e.openBefore);
    StopWatch(t, e.openBefore);
  }

  lemma OnWatch(t: State)
    ensures Untouched(t, DcOutputOn(t)) && DcOutputOn(t).protocol == t.protocol
  {
    hide DcOutputOn, TallyOf;
  }

  lemma StopWatch(t: State, openBefore: bool)
    ensures Untouched(t, StopPower(t, openBefore)) && StopPower(t, openBefore).protocol == t.protocol
  {
    hide StopPower;
  }

  lemma DinPowerWatch(t: State, e: Env)
    ensures Untouched(t, DinPower(t, e).0)
  {
    hide DcOutputOn, EnableOutput, Drive, TallyOf;
  }

  lemma PowerRearms(t: State, e: Env)
    ensures Rearms(t, AnswerDinPower(t, e), false, e.now)
    ensures Rearms(t, AnswerIsoPower(t, e), false, e.now)
    ensures t.protocol == Iso2 ==>
              Rearms(t, StartWatchdog(AnswerIsoPower(t, e), AnswerIsoPower(t, e).phase, e.now), true, e.now)
  {
    hide Answer, ReportStatus, StartWatchdog, IsoPower, DinPower, TallyOf, Rearms;
    IsoPowerWatch(t, e);
    DinPowerWatch(t, e);
    NotTouched(t, AnswerDinPower(t, e), e.now);
    NotTouched(t, AnswerIsoPower(t, e), e.now);
    if t.protocol == Iso2 {
      StartRearms(t, AnswerIsoPower(t, e), AnswerIsoPower(t, e).phase, e.now);
    }
  }

  lemma DemandRearms(t: State, e: Env)
    ensures Rearms(t, DinCurrentDemand(t, e), false, e.now)
    ensures t.protocol == Iso2 && t.phase == ForCurrentDemand ==> Rearms(t, IsoCurrentDemand(t, e), true, e.now)
  {
    hide Answer, ReportStatus, StartWatchdog, SetTargets, EnableOutput, Drive, TallyOf, Rearms;
    NotTouched(t, DinCurrentDemand(t, e), e.now);
    if t.protocol == Iso2 && t.phase == ForCurrentDemand {
      var set0 := t.(dc := SetTargets(t.dc, t.isoDoc.v, t.isoDoc.i), charging := true);
      StartRearms(t, Answer(ReportStatus(set0, e.status), CurrentDemand, true, e.enc, e.now), ForCurrentDemand, e.now);
    }
  }

  lemma LateRearms(t: State, e: Env)
    ensures Rearms(t, DinMetering(t, e), false, e.now)
    ensures Rearms(t, DinLatePower(t, e), false, e.now)
  {
    hide Answer, TallyOf, Rearms;
    NotTouched(t, DinMetering(t, e), e.now);
    NotTouched(t, DinLatePower(t, e), e.now);
  }

  lemma LateIsoRearms(t: State, e: Env)
    ensures Rearms(t, IsoMetering(t, e), false, e.now)
    ensures Rearms(t, IsoStop(t, e), false, e.now)
  {
    hide Answer, ReportStatus, StopPower, TallyOf, Rearms;
    NotTouched(t, IsoMetering(t, e), e.now);
    NotTouched(t, IsoStop(t, e), e.now);
  }

  lemma PaymentRearms(t: State, e: Env)
    requires t.protocol == Iso2
    ensures Rearms(t, IsoPayment(t, e), t.isoDoc.payment != OtherPayment, e.now)
  {
    hide Answer, ResetSession, StartWatchdog, TallyOf;
    if t.isoDoc.payment != OtherPayment {
      var paid := Answer(t, PaymentSelection, true, e.enc, e.now);
      StartRearms(t, paid.(expectDetails := t.isoDoc.payment == Contract,
                           detailsDone := t.isoDoc.payment != Contract, phase := ForAuthorization),
                  ForAuthorization, e.now);
    }
  }

  lemma AuthorizationRearms(t: State, e: Env)
    requires t.protocol == Iso2
    ensures Rearms(t, IsoAuthorization(t, e), t.detailsDone || !t.expectDetails, e.now)
    ensures Rearms(t, Answer(t, PaymentDetails, true, e.enc, e.now).(detailsDone := true, expectDetails := false),
                   false, e.now)
  {
    hide Answer, AdvanceIso, TallyOf, Rearms;
    AdvanceRearms(t, Authorization, ForChargeParameter, e);
    NotTouched(t, Answer(t, Authorization, false, e.enc, e.now), e.now);
    NotTouched(t, Answer(t, PaymentDetails, true, e.enc, e.now).(detailsDone := true, expectDetails := false), e.now);
  }

  // ---------------------------------------------------------------- frames

  lemma EarlyDinRearms(t: State, e: Env)
    requires t.phase != ForPowerDelivery && t.phase != ForCurrentDemand && t.phase != ForSessionStop
    ensures Rearms(t, OnDin(t, e), false, e.now)
  {
    hide AdvanceDin, Rearms;
    NotTouched(t, t, e.now);
    if DinTable(t.phase).Some? {
      var (m, next) := DinTable(t.phase).value;
      assert OnDin(t, e) == if m in t.dinDoc.used then AdvanceDin(t, m, next, e) else t;
      hide OnDin;
      AdvanceRearms(t, m, next, e);
    } else if t.phase == ForPaymentSelection {
      AdvanceRearms(t, PaymentSelection, ForAuthorization, e);
    }
  }

  lemma PowerDinShape(t: State, e: Env)
    requires t.phase == ForPowerDelivery
    ensures OnDin(t, e) == (if PreCharge in t.dinDoc.used then AdvanceDin(t, PreCharge, ForPowerDelivery, e)
                            else if PowerDelivery in t.dinDoc.used then AnswerDinPower(t, e) else t)
  {
    hide AdvanceDin, AnswerDinPower;
  }

  lemma PowerDinRearms(t: State, e: Env)
    requires t.phase == ForPowerDelivery
    ensures Rearms(t, OnDin(t, e), false, e.now)
  {
    hide OnDin, AdvanceDin, AnswerDinPower, Rearms;
    PowerDinShape(t, e);
    if PreCharge in t.dinDoc.used {
      AdvanceRearms(t, PreCharge, ForPowerDelivery, e);
    } else if PowerDelivery in t.dinDoc.used {
      PowerRearms(t, e);
    } else {
      NotTouched(t, t, e.now);
    }
  }

  lemma DemandDinRearms(t: State, e: Env)
    requires t.phase == ForCurrentDemand
    ensures Rearms(t, OnDin(t, e), false, e.now)
  {
    hide AnswerDinPower, DinCurrentDemand, DinMetering, Rearms;
    if PowerDelivery in t.dinDoc.used {
      PowerRearms(t, e);
    } else if CurrentDemand in t.dinDoc.used {
      DemandRearms(t, e);
    } else if MeteringReceipt in t.dinDoc.used {
      LateRearms(t, e);
    } else {
      NotTouched(t, t, e.now);
    }
  }

  lemma StopDinRearms(t: State, e: Env)
    requires t.phase == ForSessionStop
    ensures Rearms(t, OnDin(t, e), false, e.now)
  {
    hide OnDin, Answer, DinMetering, DinLatePower, TallyOf, Rearms;
    DinStopShape(t, e);
    NotTouched(t, t, e.now);
    LateRearms(t, e);
    NotTouched(t, Answer(t, SessionStop, true, e.enc, e.now).(charging := false, phase := ForAppProtocol), e.now);
  }

  /** The DIN branch never restarts the watchdog. */
  lemma DinRearms(t: State, e: Env)
    ensures Rearms(t, OnDin(t, e), false, e.now)
  {
    hide OnDin, Rearms;
    match t.phase
    case ForPowerDelivery => PowerDinRearms(t, e);
    case ForCurrentDemand => DemandDinRearms(t, e);
    case ForSessionStop => StopDinRearms(t, e);
    case _ => EarlyDinRearms(t, e);
  }

  lemma MeteringRearms(t: State, e: Env)
    requires MeteringFirst(t)
    ensures Rearms(t, OnIso(t, e), false, e.now)
  {
    hide OnIso, IsoMetering, OnDin, Rearms, MeteringFirst;
    MeteringShape(t, e);
    LateIsoRearms(t, e);
    DinRearms(IsoMetering(t, e), SecondReadings(e));
    NoRearmTrans(t, IsoMetering(t, e), OnDin(IsoMetering(t, e), SecondReadings(e)), e.now);
  }

  lemma MeteringNeverArms(t: State)
    requires MeteringFirst(t)
    ensures !Arms(t)
  {
  }

  lemma NoRearmTrans(t: State, r: State, q: State, now: u32)
    requires Rearms(t, r, false, now) && Rearms(r, q, false, now)
    ensures Rearms(t, q, false, now)
  {
    hide TallyOf;
  }

  lemma TableRearms(t: State, e: Env)
    requires IsoTable(t.phase).Some? && t.protocol == Iso2
    ensures Rearms(t, OnIso(t, e), Arms(t), e.now)
  {
    hide OnIso, AdvanceIso, OnDin, Falls, Rearms;
    TableShape(t, e);
    AdvanceRearms(t, IsoTable(t.phase).value.0, IsoTable(t.phase).value.1, e);
    DinRearms(t, e);
  }

  lemma EarlyRearms(t: State, e: Env)
    requires t.protocol == Iso2 && (t.phase == ForPaymentSelection || t.phase == ForAuthorization)
    ensures Rearms(t, OnIso(t, e), Arms(t), e.now)
  {
    hide Answer, IsoPayment, IsoAuthorization, OnDin, Rearms;
    DinRearms(t, e);
    PaymentRearms(t, e);
    AuthorizationRearms(t, e);
  }

  lemma PowerPhaseRearms(t: State, e: Env)
    requires t.protocol == Iso2 && t.phase == ForPowerDelivery
    ensures Rearms(t, OnIso(t, e), Arms(t), e.now)
  {
    hide AnswerIsoPower, OnDin, StartWatchdog, Rearms;
    DinRearms(t, e);
    PowerRearms(t, e);
  }

  lemma DemandPhaseRearms(t: State, e: Env)
    requires t.protocol == Iso2 && t.phase == ForCurrentDemand && !MeteringFirst(t)
    ensures Rearms(t, OnIso(t, e), Arms(t), e.now)
  {
    hide OnIso, AnswerIsoPower, IsoCurrentDemand, OnDin, Rearms, MeteringFirst, Falls, StartRequested;
    DemandShape(t, e);
    if PowerDelivery in t.isoDoc.used {
      PowerRearms(t, e);
    } else if CurrentDemand in t.isoDoc.used {
      DemandRearms(t, e);
    } else {
      DinRearms(t, e);
    }
  }

  lemma StopPhaseRearms(t: State, e: Env)
    requires t.protocol == Iso2 && t.phase == ForSessionStop && !MeteringFirst(t)
    ensures Rearms(t, OnIso(t, e), false, e.now)
  {
    hide OnIso, AnswerIsoPower, IsoStop, OnDin, Rearms, MeteringFirst;
    if Falls(t) {
      FallsPlain(t, e);
      DinRearms(t, e);
    } else {
      HlcAnswers.LateShape(t, e);
      LateIsoRearms(t, e);
      PowerRearms(t, e);
    }
  }

  lemma IsoRearms(t: State, e: Env)
    requires t.protocol == Iso2 && t.phase != ForAppProtocol
    ensures Rearms(t, OnIso(t, e), Arms(t), e.now)
  {
    hide OnIso, Rearms, MeteringFirst, Arms;
    if MeteringFirst(t) {
      MeteringNeverArms(t);
      MeteringRearms(t, e);
    } else {
      StopNeverArms(t);
      match t.phase
      case ForPaymentSelection => EarlyRearms(t, e);
      case ForAuthorization => EarlyRearms(t, e);
      case ForPowerDelivery => PowerPhaseRearms(t, e);
      case ForCurrentDemand => DemandPhaseRearms(t, e);
      case ForSessionStop => StopPhaseRearms(t, e);
      case _ => TableRearms(t, e);
    }
  }

  lemma StopNeverArms(t: State)
    ensures t.phase == ForSessionStop ==> !Arms(t)
  {
  }

  /** Past the handshake a frame puts a watchdog start on record exactly for the requests listed by Arms: it
      then runs from the time of that frame, for the phase that follows. No other frame starts it. */
  lemma ArmsExactly(t: State, d: Decoded, e: Env)
    requires t.phase != ForAppProtocol
    ensures Rearms(t, Dialogue(t, d, e), Arms(t), e.now)
  {
    hide OnIso, OnDin, Rearms;
    if t.protocol == Iso2 {
      IsoRearms(t, e);
    } else {
      DinRearms(t, e);
    }
  }

  /** Schemas of an offer that the station knows, and ISO schemas that could be answered. */
  function Known(apps: seq<App>): nat {
    if apps == [] then 0 else Known(apps[1..]) + (if apps[0].scheme == OtherScheme then 0 else 1)
  }

  function IsoAnswered(apps: seq<App>): nat {
    if apps == [] then 0
    else IsoAnswered(apps[1..]) + (if apps[0].scheme == Iso2Scheme && apps[0].enc.Some? then 1 else 0)
  }

  lemma OneAppTally(t: State, a: App, now: u32)
    ensures var r := OneApp(t, a, now); var c := TallyOf(t.log);
            var known, iso := a.scheme != OtherScheme, a.scheme == Iso2Scheme && a.enc.Some?;
            && TallyOf(r.log) == c.(replies := c.replies + (if known then 1 else 0), arms := c.arms + (if iso then 1 else 0))
            && r.lastActivity == t.lastActivity
            && (if iso then r.wd.active && r.wd.start == now else r.wd == t.wd)
  {
    hide Answer, StartWatchdog, TallyOf;
  }

  /** An offer is answered once for every schema the station knows; the watchdog is started once for every ISO
      schema among them that could be answered, and runs from then. */
  lemma {:induction false} HandshakeTally(t: State, apps: seq<App>, now: u32)
    ensures var r := Handshake(t, apps, now); var c := TallyOf(t.log);
            && TallyOf(r.log) == c.(replies := c.replies + Known(apps), arms := c.arms + IsoAnswered(apps))
            && r.lastActivity == t.lastActivity
            && (if IsoAnswered(apps) > 0 then r.wd.active && r.wd.start == now else r.wd == t.wd)
    decreases |apps|
  {
    hide OneApp, TallyOf, Handshake, Known, IsoAnswered;
    FirstApp(t, apps, now);
    if apps != [] {
      OneAppTally(t, apps[0], now);
      HandshakeTally(OneApp(t, apps[0], now), apps[1..], now);
    }
  }

  lemma FirstApp(t: State, apps: seq<App>, now: u32)
    ensures if apps == [] then Handshake(t, apps, now) == t && Known(apps) == 0 && IsoAnswered(apps) == 0
            else && Handshake(t, apps, now) == Handshake(OneApp(t, apps[0], now), apps[1..], now)
                 && Known(apps) == Known(apps[1..]) + (if apps[0].scheme != OtherScheme then 1 else 0)
                 && IsoAnswered(apps) ==
                    IsoAnswered(apps[1..]) + (if apps[0].scheme == Iso2Scheme && apps[0].enc.Some? then 1 else 0)
  {
    hide OneApp;
  }

  // ---------------------------------------------------------------- when a tick finds it expired

  /** In every run, against an unbounded clock: the next tick finds the watchdog expired exactly when it runs
      and its last recorded start lies more than the timeout back. */
  lemma ExpiresExactly(b: State, ts: seq<Timed>, e: Env, at: nat)
    requires PoweredUp(b) && Regular(ts + [Timed(Tick(e), at)]) && 0 < b.wd.timeout <= TWO31
    ensures var w := After(b, ts).wd;
            Expired(w, e.now) <==> w.active && at > LastArmed(b, ts) + b.wd.timeout
  {
    hide Good, Watched, Expired, EventEncodable;
    var all := ts + [Timed(Tick(e), at)];
    assert all[..|all| - 1] == ts && all[|all| - 1] == Timed(Tick(e), at);
    var w := After(b, ts).wd;
    AfterGood(b, ts);
    DeadlineKept(b, ts);
    if w.active {
      ExpiredExact(w, LastArmed(b, ts), at);
    } else {
      InactiveNeverExpires(w, e.now);
    }
  }

  // ---------------------------------------------------------------- charging goes on

  /** An ISO session that is charging over an open connection. */
  predicate Charges(t: State) {
    && t.protocol == Iso2 && t.phase == ForCurrentDemand && t.wd.active
    && t.dc.enabled && t.charging && t.relay.cmd && t.tx.tcp == Established
  }

  /** The frame is a CurrentDemand and nothing the phase would prefer to it. */
  predicate Demands(d: Decoded) {
    d.ok && CurrentDemand in d.iso.used && PowerDelivery !in d.iso.used
  }

  /** The first n frames of a call are demands. */
  predicate DemandsOf(n: nat, o: Oracle) {
    forall k :: 0 <= k < n ==> Demands(o(k).d)
  }

  /** The bytes are accepted, and each frame they complete is such a demand. */
  predicate OnlyDemands(rx: Data, payload: Data, o: Oracle) {
    var d := V2gtp.Feed(rx, payload);
    d.end != V2gtp.Rejected && DemandsOf(|d.frames|, o)
  }

  /** The event does not end the session for a reason other than the watchdog: demands come in on either path,
      the vehicle stays connected, and no tick finds the retransmission or the idle limit reached. */
  predicate Sustains(t: State, ev: Event) {
    match ev
    case Packet(s, o, e) =>
      !s.rst && !s.fin && |s.payload| < V2gtp.RX_CAPACITY && OnlyDemands(t.rx, s.payload, o)
    case SocketData(p, o, e) => OnlyDemands(t.rx, p, o)
    case TransportClosed(_) => false
    case Tick(e) => !LimitReached(t, e.now) && !IdleDue(t, e.now)
    case Pilot20ms(c, _) => c
    case _ => true
  }

  /** The event is taken in and completes at least one frame. */
  predicate BringsFrame(t: State, ev: Event) {
    match ev
    case Packet(s, _, _) =>
      s.dstPort == SECC_PORT && !(s.syn && !s.ack) && V2gtp.Feed(t.rx, s.payload).frames != []
    case SocketData(p, _, _) => V2gtp.Feed(t.rx, p).frames != []
    case _ => false
  }

  /** True time of the last event from position n on that brought a frame; before that, of the last recorded
      start among the first n events. */
  function LastDemand(b: State, ts: seq<Timed>, n: nat): nat {
    if |ts| <= n then LastArmed(b, ts)
    else
      var p, last := ts[..|ts| - 1], ts[|ts| - 1];
      if BringsFrame(After(b, p), last.ev) then last.at else LastDemand(b, p, n)
  }

  /** From position n on all events sustain the session, and every tick comes at most the watchdog's timeout
      after the last demand. */
  ghost predicate Sustained(b: State, ts: seq<Timed>, n: nat) {
    |ts| > n ==>
      var p, last := ts[..|ts| - 1], ts[|ts| - 1];
      && Sustained(b, p, n) && Sustains(After(b, p), last.ev)
      && (last.ev.Tick? ==> last.at <= LastDemand(b, p, n) + b.wd.timeout)
  }

  /** r charges as t did, and has n restarts of the watchdog more on record. */
  predicate GoesOn(t: State, r: State, n: nat) {
    Charges(r) && TallyOf(r.log).arms == TallyOf(t.log).arms + n
  }

  lemma DemandFrame(t: State, d: Decoded, e: Env)
    requires Charges(t) && Demands(d)
    ensures GoesOn(t, OnFrame(t, d, e), 1)
  {
    hide Answer, ReportStatus, StartWatchdog, SetTargets, TallyOf, AnswerIsoPower, IsoMetering, OnDin;
    var s := t.(rx := [], isoDoc := d.iso);
    assert Decode(t, d) == s;
    DemandGoesOn(s, e);
    assert Dialogue(s, d, e) == IsoCurrentDemand(s, e);
  }

  lemma DemandGoesOn(t: State, e: Env)
    requires Charges(t)
    ensures GoesOn(t, IsoCurrentDemand(t, e), 1)
  {
    hide Answer, ReportStatus, StartWatchdog, SetTargets, TallyOf;
    OffAfter(t.dc, t.isoDoc.v, t.isoDoc.i);
  }

  lemma DemandsLast(n: nat, o: Oracle)
    requires n > 0 && DemandsOf(n, o)
    ensures DemandsOf(n - 1, o) && Demands(o(n - 1).d)
  {
    hide Demands;
  }

  lemma {:induction false} DemandFrames(t: State, n: nat, o: Oracle)
    requires Charges(t) && DemandsOf(n, o)
    ensures GoesOn(t, OnFrames(t, n, o), n)
  {
    hide OnFrame, OnFrames, Charges, Demands, DemandsOf, GoesOn;
    OneMoreFrame(t, n, o);
    if n == 0 {
      StillCharging(t);
    } else {
      DemandsLast(n, o);
      DemandFrames(t, n - 1, o);
      var p := OnFrames(t, n - 1, o);
      ChargesOn(t, p, n - 1);
      DemandFrame(p, o(n - 1).d, o(n - 1).e);
      GoesOnTrans(t, p, OnFrame(p, o(n - 1).d, o(n - 1).e), n - 1, 1);
    }
  }

  lemma OneMoreFrame(t: State, n: nat, o: Oracle)
    ensures OnFrames(t, 0, o) == t
    ensures n > 0 ==> OnFrames(t, n, o) == OnFrame(OnFrames(t, n - 1, o), o(n - 1).d, o(n - 1).e)
  {
    hide OnFrame;
  }

  lemma StillCharging(t: State)
    requires Charges(t)
    ensures GoesOn(t, t, 0)
  {
    hide TallyOf;
  }

  lemma ChargesOn(t: State, r: State, n: nat)
    requires GoesOn(t, r, n)
    ensures Charges(r)
  {
  }

  lemma GoesOnTrans(t: State, r: State, q: State, n: nat, m: nat)
    requires GoesOn(t, r, n) && GoesOn(r, q, m)
    ensures GoesOn(t, q, n + m)
  {
    hide Charges, TallyOf;
  }

  lemma DemandPayload(t: State, payload: Data, o: Oracle, openBefore: bool)
    requires Charges(t) && OnlyDemands(t.rx, payload, o)
    ensures GoesOn(t, BufferPayload(t, payload, o, openBefore), |V2gtp.Feed(t.rx, payload).frames|)
  {
    hide OnFrames, ResetSession, V2gtp.Deframe, V2gtp.Accept, Demands, DemandsOf, Charges, TallyOf;
    StillCharging(t);
    RestCharging(t, payload, o);
    DemandFrames(t, |V2gtp.Feed(t.rx, payload).frames|, o);
  }

  lemma RestCharging(t: State, payload: Data, o: Oracle)
    ensures var d := V2gtp.Feed(t.rx, payload); var p := OnFrames(t, |d.frames|, o);
            Charges(p) ==> Charges(p.(rx := d.rest))
  {
    hide OnFrames, V2gtp.Feed;
  }

  lemma SameCharging(t: State, r: State)
    requires Charges(t) && r == t.(tx := r.tx, lastActivity := r.lastActivity) && r.tx.tcp == Established
    ensures GoesOn(t, r, 0)
  {
    hide TallyOf;
  }

  lemma DemandData(t: State, s: Seg, o: Oracle, openBefore: bool)
    requires Charges(t) && OnlyDemands(t.rx, s.payload, o)
    ensures GoesOn(t, OnData(t, s, o, openBefore), |V2gtp.Feed(t.rx, s.payload).frames|)
  {
    hide BufferPayload, Put, Charges, OnlyDemands, TallyOf;
    var x := t.tx.(ackNr := (s.seqNr + |s.payload|) % TWO32, seqNr := s.ackNr);
    var w := Put(x, AckSent(x.seqNr, x.ackNr));
    ChargesOpen(t);
    SameCharging(t, t.(tx := w));
    DemandPayload(t.(tx := w), s.payload, o, openBefore);
  }

  lemma ChargesOpen(t: State)
    requires Charges(t)
    ensures t.tx.tcp == Established
  {
  }

  lemma DemandSegment(t: State, s: Seg, o: Oracle, e: Env)
    requires Charges(t) && Sustains(t, Packet(s, o, e))
    ensures GoesOn(t, OnSegment(t, s, o, e),
                   if BringsFrame(t, Packet(s, o, e)) then |V2gtp.Feed(t.rx, s.payload).frames| else 0)
  {
    hide OnData, OnAck, V2gtp.Deframe, V2gtp.Accept, Charges, OnlyDemands, TallyOf;
    ChargesOpen(t);
    var t1 := t.(lastActivity := e.now);
    SameCharging(t, t);
    SameCharging(t, t1);
    DemandData(t1, s, o, e.openBefore);
    var t2 := if s.payload != [] then OnData(t1, s, o, e.openBefore) else t1;
    ChargesOpen(t2);
    AckKeepsTcp(t2.tx, s.ackNr);
    SameCharging(t2, t2.(tx := OnAck(t2.tx, s.ackNr)));
  }

  lemma PilotGoesOn(t: State, openBefore: bool)
    requires Charges(t)
    ensures GoesOn(t, CpCheck(t, true, openBefore), 0)
  {
    hide TallyOf;
  }

  lemma RampGoesOn(t: State, now: u32)
    requires Charges(t)
    ensures GoesOn(t, t.(dc := RampTick(t.dc, now)), 0)
  {
    hide TallyOf;
    RampKeepsEnabled(t.dc, now);
  }

  lemma RampKeepsEnabled(d: Dc, now: u32)
    ensures RampTick(d, now).enabled == d.enabled
  {
  }

  /** A tick that is not late only repeats a payload, if one is due. */
  lemma TickGoesOn(t: State, e: Env)
    requires Charges(t) && Sustains(t, Tick(e)) && !Expired(t.wd, e.now)
    ensures GoesOn(t, TcpTick(t, e), 0)
  {
    hide TcpTick, Retransmit, Expired, LimitReached, IdleDue, RetryDue, Charges, TallyOf;
    ChargesOpen(t);
    TickExactly(t, e);
    RetransmitKeepsTcp(t.tx.(attempts := t.tx.attempts + 1), e.now);
    SameCharging(t, t);
    SameCharging(t, TcpTick(t, e));
  }

  /** An event that sustains the session, and if it is a tick is not late, keeps it charging; it restarts the
      watchdog exactly when it brings a frame. */
  lemma SustainedStep(t: State, ev: Event)
    requires Charges(t) && Sustains(t, ev) && (ev.Tick? ==> !Expired(t.wd, ev.e.now))
    ensures Charges(Step(t, ev))
    ensures TallyOf(Step(t, ev).log).arms > TallyOf(t.log).arms <==> BringsFrame(t, ev)
  {
    hide OnSegment, BufferPayload, TcpTick, CpCheck, RampTick, V2gtp.Feed, Charges, OnlyDemands, TallyOf, Expired,
         LimitReached, IdleDue;
    ChargesOpen(t);
    match ev
    case Packet(s, o, e) => DemandSegment(t, s, o, e);
    case SocketData(p, o, e) =>
      SameCharging(t, t.(lastActivity := e.now));
      DemandPayload(t.(lastActivity := e.now), p, o, e.openBefore);
    case SocketSender(on) => SameCharging(t, Step(t, ev));
    case TransportOpened(e) => SameCharging(t, Step(t, ev));
    case Tick(e) => TickGoesOn(t, e);
    case Pilot20ms(c, openBefore) => PilotGoesOn(t, openBefore);
    case DcTick(n) => RampGoesOn(t, n);
  }

  /** Charging goes on: from any state of any run in which an ISO session charges, as long as the vehicle stays
      connected, sends demands only, and no tick comes later than the timeout after the last of them, no tick
      finds the watchdog expired, and phase, output, contactor and connection stay. */
  lemma {:induction false} ChargingKept(b: State, ts: seq<Timed>, n: nat)
    requires PoweredUp(b) && Regular(ts) && 0 < b.wd.timeout <= TWO31
    requires n <= |ts| && Charges(After(b, ts[..n])) && Sustained(b, ts, n)
    ensures Charges(After(b, ts)) && LastDemand(b, ts, n) == LastArmed(b, ts)
    ensures |ts| > n && ts[|ts| - 1].ev.Tick? ==> !Expired(After(b, ts[..|ts| - 1]).wd, ts[|ts| - 1].ev.e.now)
    decreases |ts|
  {
    if |ts| > n {
      hide After, Step, Charges, Sustains, BringsFrame, Expired, TallyOf, Regular, LastArmed, LastDemand, Sustained,
           PoweredUp;
      var p, last := ts[..|ts| - 1], ts[|ts| - 1];
      LastEvent(b, ts, n);
      ChargingKept(b, p, n);
      TickInTime(b, ts, n);
      SustainedStep(After(b, p), last.ev);
    } else {
      FirstOnly(b, ts, n);
    }
  }

  lemma FirstOnly(b: State, ts: seq<Timed>, n: nat)
    requires |ts| == n
    ensures ts[..n] == ts && LastDemand(b, ts, n) == LastArmed(b, ts)
  {
  }

  lemma TickInTime(b: State, ts: seq<Timed>, n: nat)
    requires PoweredUp(b) && Regular(ts) && 0 < b.wd.timeout <= TWO31
    requires |ts| > n && Sustained(b, ts, n) && LastDemand(b, ts[..|ts| - 1], n) == LastArmed(b, ts[..|ts| - 1])
    ensures var p, last := ts[..|ts| - 1], ts[|ts| - 1];
            last.ev.Tick? ==> !Expired(After(b, p).wd, last.ev.e.now)
  {
    hide After, Sustains, BringsFrame, Expired, Regular, LastArmed, LastDemand, PoweredUp;
    var p, last := ts[..|ts| - 1], ts[|ts| - 1];
    if last.ev.Tick? {
      assert ts == p + [Timed(Tick(last.ev.e), last.at)];
      ExpiresExactly(b, p, last.ev.e, last.at);
    }
  }

  /** What the definitions over runs say of the last event. */
  lemma LastEvent(b: State, ts: seq<Timed>, n: nat)
    requires |ts| > n && Regular(ts) && Sustained(b, ts, n)
    ensures var p, last := ts[..|ts| - 1], ts[|ts| - 1]; var t := After(b, p);
            && ts[..n] == p[..n]
            && After(b, ts) == Step(t, last.ev) && Regular(p) && Sustained(b, p, n) && Sustains(t, last.ev)
            && LastArmed(b, ts) == (if TallyOf(Step(t, last.ev).log).arms > TallyOf(t.log).arms
                                    then last.at else LastArmed(b, p))
            && LastDemand(b, ts, n) == (if BringsFrame(t, last.ev) then last.at else LastDemand(b, p, n))
            && (last.ev.Tick? ==> last.at <= LastDemand(b, p, n) + b.wd.timeout)
  {
    hide Step, Sustains, BringsFrame, TallyOf, EventEncodable, EventClocked;
  }
}
