/** The charging dialogue of src/tcp.cpp as a function on values: DIN 70121 and ISO 15118-2 messages
    drive the contactor, the DC output and the ISO watchdog. The specification is organised by request
    tables; the class that refines it follows the branches of the program. ISO20_ENABLE is 0. */
module Hlc {
  import opened Bytes
  import opened CpControl
  import opened DcCan
  import opened IsoWatchdog
  import opened TcpSender

  // ---------------------------------------------------------------- messages

  /** fsmState: the request the station is waiting for. */
  datatype Phase =
    | ForAppProtocol | ForSessionSetup | ForServiceDiscovery | ForPaymentSelection
    | ForAuthorization | ForChargeParameter | ForCableCheck | ForPreCharge
    | ForPowerDelivery | ForCurrentDemand | ForSessionStop

  datatype Protocol = Din | Iso2

  datatype Msg =
    | AppProtocol | SessionSetup | ServiceDiscovery | PaymentSelection | PaymentDetails
    | Authorization | ChargeParameter | CableCheck | PreCharge | PowerDelivery
    | CurrentDemand | MeteringReceipt | SessionStop

  datatype Payment = ExternalPayment | Contract | OtherPayment
  datatype ChargeProgress = Begin | End | Renegotiate

  /** A decoded document: which body elements carry their "is used" flag, and the fields acted on. */
  datatype DinDoc = DinDoc(used: set<Msg>, external: bool, ready: bool, complete: bool, v: real, i: real)
  datatype IsoDoc = IsoDoc(used: set<Msg>, payment: Payment, progress: ChargeProgress, v: real, i: real)

  /** One schema offered by the vehicle, and how encoding an answer to it would turn out. */
  datatype Scheme = DinScheme | Iso2Scheme | OtherScheme
  datatype App = App(scheme: Scheme, enc: Option<Data>)

  /** What the decoder makes of a frame. Only the document of the decoder that runs is looked at; a
      failed decode may leave that document in any state. */
  datatype Decoded = Decoded(ok: bool, isRequest: bool, apps: seq<App>, din: DinDoc, iso: IsoDoc)

  /** Readings taken while one frame is handled: clock, auxiliary contact around a coil write and at
      a status report, and the outcome of encoding the first and second answer. */
  datatype Env = Env(
    now: u32,
    before: bool, after: bool, openBefore: bool,
    status: bool, status2: bool,
    enc: Option<Data>, enc2: Option<Data>)

  // ---------------------------------------------------------------- state

  datatype Act =
    | Reply(msg: Msg, positive: bool, sent: bool)
    | DcOn            // the output is switched on
    | Armed           // the ISO watchdog is (re)started
    | Reset

  datatype State = State(
    phase: Phase, protocol: Protocol,
    dinDoc: DinDoc, isoDoc: IsoDoc,
    expectDetails: bool, detailsDone: bool,
    charging: bool, connected: bool,
    relay: Relay, dc: Dc, wd: Watchdog,
    tx: Sender, rx: Data, lastActivity: u32,
    log: seq<Act>)

  function PhaseNr(p: Phase): nat {
    match p
    case ForAppProtocol => 0
    case ForSessionSetup => 1
    case ForServiceDiscovery => 2
    case ForPaymentSelection => 3
    case ForAuthorization => 4
    case ForChargeParameter => 5
    case ForCableCheck => 6
    case ForPreCharge => 7
    case ForPowerDelivery => 8
    case ForCurrentDemand => 9
    case ForSessionStop => 10
  }

  // ---------------------------------------------------------------- phase-order monitor over the log

  /** The stage a positive answer to m completes; zero for messages that complete none. */
  function Stage(m: Msg): nat {
    match m
    case SessionSetup => 2
    case ServiceDiscovery => 3
    case PaymentSelection => 4
    case Authorization => 5
    case ChargeParameter => 6
    case CableCheck => 7
    case PreCharge => 8
    case _ => 0
  }

  const COMPLETE: nat := 8

  /** How far the log has come in the current session: 1 once a protocol is agreed on, then one stage for
      each step of the dialogue in its order. ChargeParameterDiscovery can be returned to. */
  function Advance(p: nat, a: Act): nat {
    match a
    case Reset => 0
    case DcOn => p
    case Armed => p
    case Reply(m, positive, sent) =>
      if m == AppProtocol then (if sent then 1 else p)
      else if m == SessionStop then 0
      else if m == ChargeParameter then (if p >= Stage(m) - 1 then Stage(m) else p)
      else if positive && Stage(m) == p + 1 then p + 1
      else p
  }

  function Progress(log: seq<Act>): nat {
    if log == [] then 0 else Advance(Progress(log[..|log| - 1]), log[|log| - 1])
  }

  /** Every step that enables the DC output finds the phases completed. */
  predicate OrderOk(log: seq<Act>) {
    forall k :: 0 <= k < |log| && log[k] == DcOn ==> Progress(log[..k]) == COMPLETE
  }

  /** How often the log records each kind of action. */
  datatype Tally = Tally(replies: nat, ons: nat, arms: nat, resets: nat)

  function Count(c: Tally, a: Act): Tally {
    match a
    case Reply(_, _, _) => c.(replies := c.replies + 1)
    case DcOn => c.(ons := c.ons + 1)
    case Armed => c.(arms := c.arms + 1)
    case Reset => c.(resets := c.resets + 1)
  }

  function TallyOf(log: seq<Act>): Tally {
    if log == [] then Tally(0, 0, 0, 0) else Count(TallyOf(log[..|log| - 1]), log[|log| - 1])
  }

  function Emit(t: State, a: Act): (r: State)
    ensures r == t.(log := t.log + [a])
    ensures Progress(r.log) == Advance(Progress(t.log), a)
    ensures TallyOf(r.log) == Count(TallyOf(t.log), a)
    ensures OrderOk(t.log) && (a == DcOn ==> Progress(t.log) == COMPLETE) ==> OrderOk(r.log)
  {
    var log := t.log + [a];
    assert log[..|log| - 1] == t.log;
    assert forall k :: 0 <= k < |t.log| ==> log[..k] == t.log[..k];
    t.(log := log)
  }

  // ---------------------------------------------------------------- common steps

  /** Sends an answer when it could be encoded; the answer is on record either way. */
  function Answer(t: State, m: Msg, positive: bool, enc: Option<Data>, now: u32): (r: State)
    ensures r.(tx := t.tx, log := t.log) == t
    ensures r.log == t.log + [Reply(m, positive, enc.Some?)]
    ensures Progress(r.log) == Advance(Progress(t.log), Reply(m, positive, enc.Some?))
    ensures TallyOf(r.log) == TallyOf(t.log).(replies := TallyOf(t.log).replies + 1)
    ensures OrderOk(t.log) ==> OrderOk(r.log)
    ensures r.tx == if enc.Some? then SendFrame(t.tx, enc.value, now) else t.tx
    ensures TcpSender.Sound(t.tx) ==> TcpSender.Sound(r.tx)
    ensures r.tx.tcp == t.tx.tcp && (r.tx.awaiting ==> t.tx.awaiting || t.tx.tcp == Established)
  {
    Emit(if enc.Some? then t.(tx := SendFrame(t.tx, enc.value, now)) else t,
         Reply(m, positive, enc.Some?))
  }

  /** A status report re-reads the auxiliary contact, but only while a vehicle is connected. */
  function ReportStatus(t: State, pin: bool): (r: State)
    ensures r.(relay := t.relay) == t && r.relay.cmd == t.relay.cmd
  {
    if t.connected then t.(relay := Feedback(t.relay, pin)) else t
  }

  function StartWatchdog(t: State, p: Phase, now: u32): (r: State)
    ensures r.(wd := t.wd, log := t.log) == t
    ensures t.protocol == Din ==> r == t
    ensures t.protocol == Iso2 ==> r.wd == Start(t.wd, PhaseNr(p), now) && r.log == t.log + [Armed]
    ensures Progress(r.log) == Progress(t.log) && (OrderOk(t.log) ==> OrderOk(r.log))
    ensures t.protocol == Iso2 ==> TallyOf(r.log) == TallyOf(t.log).(arms := TallyOf(t.log).arms + 1)
  {
    if t.protocol == Iso2 then Emit(t.(wd := Start(t.wd, PhaseNr(p), now)), Armed) else t
  }

  function DcOutputOn(t: State): (r: State)
    ensures r.(charging := t.charging, dc := t.dc, log := t.log) == t
    ensures r.charging && r.dc == EnableOutput(t.dc, true) && r.log == t.log + [DcOn]
    ensures DcCan.Sound(t.dc) ==> DcCan.Sound(r.dc)
    ensures Progress(r.log) == Progress(t.log)
    ensures TallyOf(r.log) == TallyOf(t.log).(ons := TallyOf(t.log).ons + 1)
    ensures OrderOk(t.log) && Progress(t.log) == COMPLETE ==> OrderOk(r.log)
  {
    Emit(t.(charging := true, dc := EnableOutput(t.dc, true)), DcOn)
  }

  function StopPower(t: State, openBefore: bool): (r: State)
    ensures r.(charging := t.charging, dc := t.dc, relay := t.relay) == t
    ensures !r.charging && !r.dc.enabled && !r.relay.cmd
    ensures DcCan.Sound(t.dc) ==> DcCan.Sound(r.dc)
  {
    t.(charging := false,
       dc := EnableOutput(SetTargets(t.dc, 0.0, 0.0), false),
       relay := Drive(t.relay, false, openBefore, false).0)
  }

  function ResetSession(t: State, openBefore: bool): (r: State)
    ensures r.phase == ForAppProtocol && r.protocol == Din && !r.wd.active && r.wd.retries == 0
    ensures !r.charging && !r.dc.enabled && !r.relay.cmd
    ensures DcCan.Sound(t.dc) ==> DcCan.Sound(r.dc)
    ensures r.tx == ClearPending(t.tx) && r.rx == [] && r.lastActivity == 0
    ensures !r.expectDetails && !r.detailsDone
    ensures r.wd.timeout == t.wd.timeout && r.wd.maxRetries == t.wd.maxRetries
    ensures TallyOf(r.log) == TallyOf(t.log).(resets := TallyOf(t.log).resets + 1)
    ensures r.log == t.log + [Reset] && Progress(r.log) == 0 && (OrderOk(t.log) ==> OrderOk(r.log))
  {
    Emit(StopPower(t, openBefore).(
           phase := ForAppProtocol, protocol := Din,
           expectDetails := false, detailsDone := false,
           tx := ClearPending(t.tx), rx := [], lastActivity := 0,
           wd := Clear(t.wd)),
         Reset)
  }

  // ---------------------------------------------------------------- protocol handshake

  /** One schema of the offer: DIN and ISO-2 schemas are each answered, later ones override earlier. */
  function OneApp(t: State, a: App, now: u32): State {
    if a.scheme == OtherScheme then t
    else
      var named := t.(protocol := if a.scheme == DinScheme then Din else Iso2);
      var answered := Answer(named, AppProtocol, true, a.enc, now);
      if a.enc.Some?
      then StartWatchdog(answered.(phase := ForSessionSetup), ForSessionSetup, now)
      else answered
  }

  function Handshake(t: State, apps: seq<App>, now: u32): State
    decreases |apps|
  {
    if apps == [] then t else Handshake(OneApp(t, apps[0], now), apps[1..], now)
  }

  // ---------------------------------------------------------------- ISO 15118-2 requests

  /** Requests that are answered and move on, with the phase that follows. */
  function IsoTable(p: Phase): Option<(Msg, Phase)> {
    match p
    case ForSessionSetup => Some((SessionSetup, ForServiceDiscovery))
    case ForServiceDiscovery => Some((ServiceDiscovery, ForPaymentSelection))
    case ForChargeParameter => Some((ChargeParameter, ForCableCheck))
    case ForCableCheck => Some((CableCheck, ForPreCharge))
    case ForPreCharge => Some((PreCharge, ForPowerDelivery))
    case _ => None
  }

  /** Answers that carry a DC status. */
  predicate CarriesStatus(m: Msg) {
    m == ChargeParameter || m == CableCheck || m == PreCharge
  }

  function AdvanceIso(t: State, m: Msg, next: Phase, e: Env): State {
    var reported := if CarriesStatus(m) then ReportStatus(t, e.status) else t;
    StartWatchdog(Answer(reported, m, true, e.enc, e.now).(phase := next), next, e.now)
  }

  /** Contactor and output follow the requested charge progress. */
  function IsoPower(t: State, progress: ChargeProgress, e: Env): (State, bool, Phase) {
    match progress
    case Begin =>
      var (relay, ok) := Drive(t.relay, true, e.before, e.after);
      var moved := t.(relay := relay);
      if ok then (DcOutputOn(moved), true, ForCurrentDemand)
      else (StopPower(moved, e.openBefore), false, ForSessionStop)
    case End => (StopPower(t, e.openBefore), true, ForSessionStop)
    case Renegotiate => (StopPower(t, e.openBefore), true, ForChargeParameter)
  }

  function AnswerIsoPower(t: State, e: Env): State {
    var (powered, ok, next) := IsoPower(t, t.isoDoc.progress, e);
    Answer(ReportStatus(powered, e.status), PowerDelivery, ok, e.enc, e.now).(phase := next)
  }

  function IsoPayment(t: State, e: Env): State {
    var supported := t.isoDoc.payment != OtherPayment;
    var answered := Answer(t, PaymentSelection, supported, e.enc, e.now);
    if !supported then ResetSession(answered, e.openBefore)
    else
      StartWatchdog(
        answered.(expectDetails := t.isoDoc.payment == Contract,
                  detailsDone := t.isoDoc.payment != Contract,
                  phase := ForAuthorization),
        ForAuthorization, e.now)
  }

  function IsoAuthorization(t: State, e: Env): State {
    if t.expectDetails && !t.detailsDone then Answer(t, Authorization, false, e.enc, e.now)
    else AdvanceIso(t, Authorization, ForChargeParameter, e)
  }

  function IsoCurrentDemand(t: State, e: Env): State {
    var set0 := t.(dc := SetTargets(t.dc, t.isoDoc.v, t.isoDoc.i), charging := true);
    StartWatchdog(Answer(ReportStatus(set0, e.status), CurrentDemand, true, e.enc, e.now),
                  ForCurrentDemand, e.now)
  }

  function IsoMetering(t: State, e: Env): State {
    Answer(ReportStatus(t, e.status), MeteringReceipt, true, e.enc, e.now)
  }

  function IsoStop(t: State, e: Env): State {
    StopPower(Answer(t, SessionStop, true, e.enc, e.now), e.openBefore).(phase := ForAppProtocol)
  }

  function SecondReadings(e: Env): Env {
    e.(status := e.status2, enc := e.enc2)
  }

  /** In an ISO session a request the phase does not expect, and a metering receipt even after it has
      been answered, is handed on to the DIN branch with whatever DIN document was decoded last. */
  function OnIso(t: State, e: Env): State {
    var used := t.isoDoc.used;
    match t.phase
    case ForAppProtocol => t
    case ForPaymentSelection =>
      if PaymentSelection in used then IsoPayment(t, e) else OnDin(t, e)
    case ForAuthorization =>
      if PaymentDetails in used then
        Answer(t, PaymentDetails, true, e.enc, e.now).(detailsDone := true, expectDetails := false)
      else if Authorization in used then IsoAuthorization(t, e)
      else OnDin(t, e)
    case ForPowerDelivery =>
      if PowerDelivery in used then
        var r := AnswerIsoPower(t, e);
        StartWatchdog(r, r.phase, e.now)
      else OnDin(t, e)
    case ForCurrentDemand =>
      if PowerDelivery in used then AnswerIsoPower(t, e)
      else if CurrentDemand in used then IsoCurrentDemand(t, e)
      else if MeteringReceipt in used then OnDin(IsoMetering(t, e), SecondReadings(e))
      else OnDin(t, e)
    case ForSessionStop =>
      if MeteringReceipt in used then OnDin(IsoMetering(t, e), SecondReadings(e))
      else if SessionStop in used then IsoStop(t, e)
      else if PowerDelivery in used then AnswerIsoPower(t, e)
      else OnDin(t, e)
    case _ =>
      var (m, next) := IsoTable(t.phase).value;
      if m in used then AdvanceIso(t, m, next, e) else OnDin(t, e)
  }

  // ---------------------------------------------------------------- DIN 70121 requests

  function DinTable(p: Phase): Option<(Msg, Phase)> {
    match p
    case ForSessionSetup => Some((SessionSetup, ForServiceDiscovery))
    case ForServiceDiscovery => Some((ServiceDiscovery, ForPaymentSelection))
    case ForAuthorization => Some((Authorization, ForChargeParameter))
    case ForChargeParameter => Some((ChargeParameter, ForCableCheck))
    case ForCableCheck => Some((CableCheck, ForPreCharge))
    case ForPreCharge => Some((PreCharge, ForPowerDelivery))
    case _ => None
  }

  function AdvanceDin(t: State, m: Msg, next: Phase, e: Env): State {
    var reported := if CarriesStatus(m) then ReportStatus(t, e.status) else t;
    Answer(reported, m, true, e.enc, e.now).(phase := next)
  }

  /** Unlike the ISO branch, a failed close leaves the coil commanded. */
  function DinPower(t: State, e: Env): (State, bool) {
    if t.dinDoc.ready then
      var (relay, ok) := Drive(t.relay, true, e.before, e.after);
      var moved := t.(relay := relay);
      if ok then (DcOutputOn(moved), true)
      else (moved.(charging := false, dc := EnableOutput(t.dc, false)), false)
    else (DinPowerOff(t, e), true)
  }

  function DinPowerOff(t: State, e: Env): State {
    t.(charging := false, dc := EnableOutput(t.dc, false),
       relay := Drive(t.relay, false, e.openBefore, false).0)
  }

  function AnswerDinPower(t: State, e: Env): State {
    var (powered, ok) := DinPower(t, e);
    var reported := if t.phase == ForPowerDelivery then ReportStatus(powered, e.status) else powered;
    Answer(reported, PowerDelivery, ok, e.enc, e.now).(
      phase := if t.dinDoc.ready && ok then ForCurrentDemand else ForSessionStop)
  }

  function DinCurrentDemand(t: State, e: Env): State {
    var set0 := t.(dc := SetTargets(t.dc, t.dinDoc.v, t.dinDoc.i));
    var acted := if t.dinDoc.complete then DinPowerOff(set0, e) else set0;
    Answer(ReportStatus(acted, e.status), CurrentDemand, true, e.enc, e.now)
  }

  /** The metering answer reads the contact whether or not a vehicle is connected. */
  function DinMetering(t: State, e: Env): State {
    Answer(t.(relay := Feedback(t.relay, e.status)), MeteringReceipt, true, e.enc, e.now)
  }

  /** A late PowerDelivery is answered and taken as the new charging flag; neither the contactor nor
      the output is touched. */
  function DinLatePower(t: State, e: Env): State {
    var r := Answer(t, PowerDelivery, true, e.enc, e.now).(charging := t.dinDoc.ready);
    if t.dinDoc.ready then r.(phase := ForCurrentDemand) else r
  }

  function OnDin(t: State, e: Env): State {
    var used := t.dinDoc.used;
    match t.phase
    case ForAppProtocol => t
    case ForPaymentSelection =>
      if PaymentSelection in used && t.dinDoc.external
      then AdvanceDin(t, PaymentSelection, ForAuthorization, e) else t
    case ForPowerDelivery =>
      if PreCharge in used then AdvanceDin(t, PreCharge, ForPowerDelivery, e)
      else if PowerDelivery in used then AnswerDinPower(t, e)
      else t
    case ForCurrentDemand =>
      if PowerDelivery in used then AnswerDinPower(t, e)
      else if CurrentDemand in used then DinCurrentDemand(t, e)
      else if MeteringReceipt in used then DinMetering(t, e)
      else t
    case ForSessionStop =>
      if MeteringReceipt in used then DinMetering(t, e)
      else if SessionStop in used then
        Answer(t, SessionStop, true, e.enc, e.now).(charging := false, phase := ForAppProtocol)
      else if PowerDelivery in used then DinLatePower(t, e)
      else t
    case _ =>
      var (m, next) := DinTable(t.phase).value;
      if m in used then AdvanceDin(t, m, next, e) else t
  }

  // ---------------------------------------------------------------- one frame

  /** The running decoder writes its document, and the received bytes are marked consumed. */
  function Decode(t: State, d: Decoded): State {
    var s := t.(rx := []);
    if t.phase == ForAppProtocol then s
    else if t.protocol == Iso2 then s.(isoDoc := d.iso)
    else s.(dinDoc := d.din)
  }

  function Dialogue(t: State, d: Decoded, e: Env): State {
    if t.phase == ForAppProtocol then (if d.isRequest then Handshake(t, d.apps, e.now) else t)
    else if t.protocol == Iso2 then OnIso(t, e)
    else OnDin(t, e)
  }

  /** Handling of one V2GTP frame; it always leaves the receive length at zero. */
  function OnFrame(t: State, d: Decoded, e: Env): State {
    var s := Decode(t, d);
    (if d.ok then Dialogue(s, d, e) else s).(rx := [])
  }
}
