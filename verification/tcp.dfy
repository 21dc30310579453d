/** src/tcp.cpp as it runs: the globals of the charging dialogue and of its transport, updated in place.
    Every method is tied to the value-level specification of Hlc and TcpLink through Abs. */
module Tcp {
  import opened Bytes
  import opened CpControl
  import opened DcCan
  import opened IsoWatchdog
  import opened TcpSender
  import opened Hlc
  import opened TcpLink
  import V2gtp

  class Station {
    const watchdog: IsoWatchdogUnit
    const cp: CpUnit
    const dc: DcUnit
    const sender: SenderUnit
    const rxData: array<byte>
    var rxDataLen: byte
    var fsmState: Phase
    var protocol: Protocol
    var dinDocDec: DinDoc
    var isoDocDec: IsoDoc
    var expectPaymentDetails: bool
    var paymentDetailsDone: bool
    var chargingActive: bool
    var lastActivity: u32
    ghost var log: seq<Act>

    ghost predicate Valid()
      reads this, sender, cp, cp.ring
    {
      && sender.Valid() && cp.Valid()
      && rxData.Length == V2gtp.RX_CAPACITY
      && rxData != sender.payload && rxData != sender.lastPayload
    }

    ghost function Abs(): State
      requires Valid()
      reads this, watchdog, dc, sender, sender.lastPayload, rxData, cp, cp.ring
    {
      State(fsmState, protocol, dinDocDec, isoDocDec, expectPaymentDetails, paymentDetailsDone,
            chargingActive, cp.IsConnected(), cp.RelayState(), dc.State(), watchdog.State(),
            sender.State(), rxData[..rxDataLen], lastActivity, log)
    }

    constructor (wired: bool, controllerFound: bool, pin: bool, timeout: u32, retries: byte)
      ensures Valid() && Abs() == Boot(wired, controllerFound, pin, timeout, retries)
    {
      watchdog := new IsoWatchdogUnit.Configure(timeout, retries);
      cp := new CpUnit(wired, pin);
      dc := new DcUnit(controllerFound);
      sender := new SenderUnit();
      rxData := new byte[V2gtp.RX_CAPACITY](_ => 0);
      rxDataLen := 0;
      fsmState, protocol := ForAppProtocol, Din;
      dinDocDec := DinDoc({}, false, false, false, 0.0, 0.0);
      isoDocDec := IsoDoc({}, OtherPayment, Begin, 0.0, 0.0);
      expectPaymentDetails, paymentDetailsDone, chargingActive := false, false, false;
      lastActivity := 0;
      log := [];
    }

    /** A reset, dialogue first. */
    static lemma StopShape(t: State, openBefore: bool)
      ensures var s := t.(phase := ForAppProtocol, protocol := Din, expectDetails := false,
                          detailsDone := false, wd := Clear(t.wd), log := t.log + [Reset]);
              ResetSession(t, openBefore) ==
              StopPower(s, openBefore).(tx := ClearPending(t.tx), rx := [], lastActivity := 0)
    {
      hide OrderOk, Progress, TallyOf;
    }

    // -------------------------------------------------------------- building blocks

    method StopEvsePowerOutput(openBefore: bool)
      requires Valid()
      modifies this`chargingActive, dc, cp`contactorCmd, cp`contactorFb
      ensures Valid() && Abs() == StopPower(old(Abs()), openBefore)
    {
      hide CpUnit.Valid, EnableOutput, SetTargets;
      chargingActive := false;
      dc.SetTargetValues(0.0, 0.0);
      dc.Enable(false);
      var _ := cp.ContactorCommand(false, openBefore, false);
    }

    method ForgetReceived()
      requires Valid()
      modifies this`rxDataLen, this`lastActivity, sender
      ensures Valid() && rxDataLen == 0
      ensures Abs() == old(Abs()).(tx := ClearPending(old(Abs().tx)), rx := [], lastActivity := 0)
    {
      hide ClearPending, CpUnit.Valid;
      sender.ForgetPending();
      rxDataLen := 0;
      lastActivity := 0;
    }

    method ForgetDialogue()
      requires Valid()
      modifies this`fsmState, this`protocol, this`expectPaymentDetails, this`paymentDetailsDone, this`log, watchdog
      ensures Valid()
      ensures Abs() == old(Abs()).(phase := ForAppProtocol, protocol := Din, expectDetails := false,
                                   detailsDone := false, wd := Clear(old(Abs().wd)), log := old(log) + [Reset])
    {
      hide Clear, CpUnit.Valid;
      fsmState, protocol := ForAppProtocol, Din;
      expectPaymentDetails, paymentDetailsDone := false, false;
      watchdog.ClearAll();
      log := log + [Reset];
    }

    method ResetHlcSession(openBefore: bool)
      requires Valid()
      modifies this, watchdog, dc, sender, cp`contactorCmd, cp`contactorFb
      ensures Valid() && Abs() == ResetSession(old(Abs()), openBefore) && rxDataLen == 0
    {
      hide StopPower, ResetSession, ClearPending, Clear, CpUnit.Valid;
      StopShape(Abs(), openBefore);
      ForgetDialogue();
      StopEvsePowerOutput(openBefore);
      ForgetReceived();
    }

    method SwitchOn()
      requires Valid()
      modifies this`chargingActive, this`log, dc
      ensures Valid() && Abs() == DcOutputOn(old(Abs()))
    {
      hide CpUnit.Valid, EnableOutput, OrderOk, Progress, TallyOf;
      chargingActive := true;
      dc.Enable(true);
      log := log + [DcOn];
    }

    /** The contactor is closed, and the output switched on once that is confirmed. */
    method StartEvsePowerOutput(e: Env) returns (contactorOk: bool)
      requires Valid()
      modifies this`chargingActive, this`log, dc, cp`contactorCmd, cp`contactorFb
      ensures Valid()
      ensures (Abs(), contactorOk, if contactorOk then ForCurrentDemand else ForSessionStop) ==
              IsoPower(old(Abs()), Begin, e)
    {
      hide StopPower, DcOutputOn, CpUnit.Valid, Drive;
      contactorOk := cp.ContactorCommand(true, e.before, e.after);
      if contactorOk {
        SwitchOn();
      } else {
        StopEvsePowerOutput(e.openBefore);
      }
    }

    method IsoProcessPowerDelivery(progress: ChargeProgress, e: Env) returns (contactorOk: bool, next: Phase)
      requires Valid()
      modifies this`chargingActive, this`log, dc, cp`contactorCmd, cp`contactorFb
      ensures Valid() && (Abs(), contactorOk, next) == IsoPower(old(Abs()), progress, e)
    {
      hide StopPower, DcOutputOn, CpUnit.Valid, Drive;
      contactorOk := true;
      if progress == Begin {
        contactorOk := StartEvsePowerOutput(e);
        next := if contactorOk then ForCurrentDemand else ForSessionStop;
      } else if progress == End {
        StopEvsePowerOutput(e.openBefore);
        next := ForSessionStop;
      } else {
        StopEvsePowerOutput(e.openBefore);
        next := ForChargeParameter;
      }
    }

    /** Encodes and sends an answer; nothing is sent when encoding fails. */
    method SendAnswer(m: Msg, positive: bool, enc: Option<Data>, now: u32)
      requires Valid()
      modifies this`log, sender, sender.payload, sender.lastPayload
      ensures Valid() && Abs() == Answer(old(Abs()), m, positive, enc, now)
    {
      hide SendFrame;
      if enc.Some? {
        sender.AddHeaderAndTransmit(enc.value, now);
      }
      log := log + [Reply(m, positive, enc.Some?)];
    }

    /** The status code of an answer re-reads the contact of a connected vehicle. */
    method ReadStatus(pin: bool)
      requires Valid()
      modifies cp`contactorFb
      ensures Valid() && Abs() == ReportStatus(old(Abs()), pin)
    {
      if cp.IsConnected() {
        var _ := cp.ContactorFeedback(pin);
      }
    }

    /** An answer that carries a status. */
    method SendStatusAnswer(m: Msg, positive: bool, e: Env)
      requires Valid()
      modifies this`log, sender, sender.payload, sender.lastPayload, cp`contactorFb
      ensures Valid() && Abs() == Answer(ReportStatus(old(Abs()), e.status), m, positive, e.enc, e.now)
    {
      hide Answer, ReportStatus, CpUnit.Valid;
      ReadStatus(e.status);
      SendAnswer(m, positive, e.enc, e.now);
    }

    method WatchdogStartState(p: Phase, now: u32)
      requires Valid()
      modifies this`log, watchdog
      ensures Valid() && Abs() == StartWatchdog(old(Abs()), p, now)
    {
      if protocol == Iso2 {
        watchdog.StartState(PhaseNr(p), now);
        log := log + [Armed];
      }
    }

    // -------------------------------------------------------------- handshake

    method AnswerSchema(a: App, now: u32)
      requires Valid()
      modifies this`fsmState, this`protocol, this`log, watchdog, sender, sender.payload, sender.lastPayload
      ensures Valid() && Abs() == OneApp(old(Abs()), a, now)
    {
      hide Answer, StartWatchdog, OrderOk, Progress, TallyOf, SendFrame, TcpSender.Sound, CpUnit.Valid;
      match a.scheme
      case DinScheme =>
        protocol := Din;
        AcceptSchema(a, now);
      case Iso2Scheme =>
        protocol := Iso2;
        AcceptSchema(a, now);
      case OtherScheme =>
    }

    /** The answer to a schema, the protocol already set; it opens the session when it could be encoded. */
    method AcceptSchema(a: App, now: u32)
      requires Valid() && a.scheme != OtherScheme && protocol == (if a.scheme == DinScheme then Din else Iso2)
      modifies this`fsmState, this`log, watchdog, sender, sender.payload, sender.lastPayload
      ensures Valid() && Abs() == OneApp(old(Abs()), a, now)
    {
      hide Answer, StartWatchdog, OrderOk, Progress, TallyOf, SendFrame, TcpSender.Sound, CpUnit.Valid;
      SendAnswer(AppProtocol, true, a.enc, now);
      if a.enc.Some? {
        fsmState := ForSessionSetup;
        WatchdogStartState(ForSessionSetup, now);
      }
    }

    method AwaitAppProtocol(apps: seq<App>, now: u32)
      requires Valid()
      modifies this`fsmState, this`protocol, this`log, watchdog, sender, sender.payload, sender.lastPayload
      ensures Valid() && Abs() == Handshake(old(Abs()), apps, now)
    {
      hide OneApp, CpUnit.Valid;
      for n := 0 to |apps|
        invariant Valid()
        invariant Handshake(Abs(), apps[n..], now) == Handshake(old(Abs()), apps, now)
      {
        assert apps[n..][0] == apps[n] && apps[n..][1..] == apps[n + 1..];
        AnswerSchema(apps[n], now);
      }
    }

    // -------------------------------------------------------------- replies that move on

    method ReplyIso(m: Msg, next: Phase, e: Env)
      requires Valid()
      modifies this`fsmState, this`log, watchdog, sender, sender.payload, sender.lastPayload, cp`contactorFb
      ensures Valid() && Abs() == AdvanceIso(old(Abs()), m, next, e)
    {
      hide Answer, ReportStatus, StartWatchdog, CarriesStatus, OrderOk, Progress, TallyOf, SendFrame, TcpSender.Sound, CpUnit.Valid;
      if CarriesStatus(m) {
        SendStatusAnswer(m, true, e);
      } else {
        SendAnswer(m, true, e.enc, e.now);
      }
      fsmState := next;
      WatchdogStartState(next, e.now);
    }

    method ReplyDin(m: Msg, next: Phase, e: Env)
      requires Valid()
      modifies this`fsmState, this`log, sender, sender.payload, sender.lastPayload, cp`contactorFb
      ensures Valid() && Abs() == AdvanceDin(old(Abs()), m, next, e)
    {
      hide Answer, ReportStatus, CarriesStatus, OrderOk, Progress, TallyOf, SendFrame, TcpSender.Sound, CpUnit.Valid;
      if CarriesStatus(m) {
        SendStatusAnswer(m, true, e);
      } else {
        SendAnswer(m, true, e.enc, e.now);
      }
      fsmState := next;
    }

    /** handle_iso_metering_receipt. */
    method HandleIsoMetering(e: Env) returns (handled: bool)
      requires Valid()
      modifies this`log, sender, sender.payload, sender.lastPayload, cp`contactorFb
      ensures Valid() && handled == (MeteringReceipt in isoDocDec.used)
      ensures Abs() == if handled then IsoMetering(old(Abs()), e) else old(Abs())
    {
      hide Answer, ReportStatus, CpUnit.Valid;
      if MeteringReceipt !in isoDocDec.used {
        return false;
      }
      SendStatusAnswer(MeteringReceipt, true, e);
      return true;
    }

    /** handleMeteringReceipt. */
    method HandleMetering(e: Env) returns (handled: bool)
      requires Valid()
      modifies this`log, sender, sender.payload, sender.lastPayload, cp`contactorFb
      ensures Valid() && handled == (MeteringReceipt in dinDocDec.used)
      ensures Abs() == if handled then DinMetering(old(Abs()), e) else old(Abs())
    {
      hide Answer, CpUnit.Valid;
      if MeteringReceipt !in dinDocDec.used {
        return false;
      }
      var _ := cp.ContactorFeedback(e.status);
      SendAnswer(MeteringReceipt, true, e.enc, e.now);
      return true;
    }

    method AnswerIsoPowerDelivery(e: Env)
      requires Valid()
      modifies this`fsmState, this`chargingActive, this`log, dc, sender, sender.payload, sender.lastPayload,
               cp`contactorCmd, cp`contactorFb
      ensures Valid() && Abs() == AnswerIsoPower(old(Abs()), e)
    {
      hide IsoPower, Answer, ReportStatus, OrderOk, Progress, TallyOf, SendFrame, TcpSender.Sound, CpUnit.Valid;
      var ok, next := IsoProcessPowerDelivery(isoDocDec.progress, e);
      SendStatusAnswer(PowerDelivery, ok, e);
      fsmState := next;
    }

    method DinStopOutput(openBefore: bool)
      requires Valid()
      modifies this`chargingActive, dc, cp`contactorCmd, cp`contactorFb
      ensures Valid()
      ensures forall e: Env :: e.openBefore == openBefore ==> Abs() == DinPowerOff(old(Abs()), e)
    {
      hide EnableOutput, Drive, CpUnit.Valid;
      chargingActive := false;
      dc.Enable(false);
      var _ := cp.ContactorCommand(false, openBefore, false);
    }

    method DinProcessPowerDelivery(e: Env) returns (contactorOk: bool)
      requires Valid()
      modifies this`chargingActive, this`log, dc, cp`contactorCmd, cp`contactorFb
      ensures Valid() && (Abs(), contactorOk) == DinPower(old(Abs()), e)
    {
      hide DcOutputOn, DinPowerOff, EnableOutput, Drive, OrderOk, Progress, TallyOf, DcCan.Sound, CpUnit.Valid;
      contactorOk := true;
      if dinDocDec.ready {
        contactorOk := cp.ContactorCommand(true, e.before, e.after);
        if contactorOk {
          SwitchOn();
        } else {
          chargingActive := false;
          dc.Enable(false);
        }
      } else {
        DinStopOutput(e.openBefore);
      }
    }

    // -------------------------------------------------------------- one method a phase

    ghost function Handled(t: State, e: Env): State {
      if t.protocol == Iso2 then OnIso(t, e) else OnDin(t, e)
    }

    method AwaitSessionSetup(e: Env)
      requires Valid() && fsmState == ForSessionSetup
      modifies this`fsmState, this`log, watchdog, sender, sender.payload, sender.lastPayload, cp`contactorFb
      ensures Valid() && Abs() == Handled(old(Abs()), e)
    {
      hide AdvanceIso, AdvanceDin, CpUnit.Valid;
      if protocol == Iso2 && SessionSetup in isoDocDec.used {
        ReplyIso(SessionSetup, ForServiceDiscovery, e);
        return;
      }
      if SessionSetup in dinDocDec.used {
        ReplyDin(SessionSetup, ForServiceDiscovery, e);
      }
    }

    method AwaitServiceDiscovery(e: Env)
      requires Valid() && fsmState == ForServiceDiscovery
      modifies this`fsmState, this`log, watchdog, sender, sender.payload, sender.lastPayload, cp`contactorFb
      ensures Valid() && Abs() == Handled(old(Abs()), e)
    {
      hide AdvanceIso, AdvanceDin, CpUnit.Valid;
      if protocol == Iso2 && ServiceDiscovery in isoDocDec.used {
        ReplyIso(ServiceDiscovery, ForPaymentSelection, e);
        return;
      }
      if ServiceDiscovery in dinDocDec.used {
        ReplyDin(ServiceDiscovery, ForPaymentSelection, e);
      }
    }

    method AwaitPaymentSelection(e: Env)
      requires Valid() && fsmState == ForPaymentSelection && rxDataLen == 0
      modifies this, watchdog, dc, sender, sender.payload, sender.lastPayload, cp`contactorCmd, cp`contactorFb
      ensures Valid() && Abs() == Handled(old(Abs()), e) && rxDataLen == 0
    {
      hide Answer, ResetSession, StartWatchdog, AdvanceDin, CpUnit.Valid;
      if protocol == Iso2 && PaymentSelection in isoDocDec.used {
        SelectIsoPayment(e);
        return;
      }
      if PaymentSelection in dinDocDec.used {
        if dinDocDec.external {
          ReplyDin(PaymentSelection, ForAuthorization, e);
        }
      }
    }

    method SelectIsoPayment(e: Env)
      requires Valid() && rxDataLen == 0
      modifies this, watchdog, dc, sender, sender.payload, sender.lastPayload, cp`contactorCmd, cp`contactorFb
      ensures Valid() && Abs() == IsoPayment(old(Abs()), e) && rxDataLen == 0
    {
      hide Answer, ResetSession, StartWatchdog, OrderOk, Progress, TallyOf, SendFrame, TcpSender.Sound, CpUnit.Valid;
      var selected := isoDocDec.payment;
      var supported := selected == ExternalPayment || selected == Contract;
      SendAnswer(PaymentSelection, supported, e.enc, e.now);
      if !supported {
        ResetHlcSession(e.openBefore);
        return;
      }
      AcceptPayment(selected, e.now);
    }

    method AcceptPayment(selected: Payment, now: u32)
      requires Valid()
      modifies this`fsmState, this`expectPaymentDetails, this`paymentDetailsDone, this`log, watchdog
      ensures Valid()
      ensures Abs() == StartWatchdog(old(Abs()).(expectDetails := selected == Contract,
                                                 detailsDone := selected != Contract,
                                                 phase := ForAuthorization),
                                     ForAuthorization, now)
    {
      hide StartWatchdog, CpUnit.Valid;
      NotePayment(selected);
      WatchdogStartState(ForAuthorization, now);
    }

    method NotePayment(selected: Payment)
      requires Valid()
      modifies this`fsmState, this`expectPaymentDetails, this`paymentDetailsDone
      ensures Valid()
      ensures Abs() == old(Abs()).(expectDetails := selected == Contract, detailsDone := selected != Contract,
                                   phase := ForAuthorization)
    {
      hide CpUnit.Valid;
      expectPaymentDetails := selected == Contract;
      paymentDetailsDone := !expectPaymentDetails;
      fsmState := ForAuthorization;
    }

    /** The ISO half; `handled` tells whether it had an answer. */
    method AuthorizeIso(e: Env) returns (handled: bool)
      requires Valid() && fsmState == ForAuthorization
      modifies this`fsmState, this`expectPaymentDetails, this`paymentDetailsDone, this`log, watchdog,
               sender, sender.payload, sender.lastPayload, cp`contactorFb
      ensures Valid()
      ensures handled <==> PaymentDetails in isoDocDec.used || Authorization in isoDocDec.used
      ensures Abs() == if PaymentDetails in isoDocDec.used
                       then Answer(old(Abs()), PaymentDetails, true, e.enc, e.now).(detailsDone := true,
                                                                                    expectDetails := false)
                       else if handled then IsoAuthorization(old(Abs()), e) else old(Abs())
    {
      hide Answer, AdvanceIso, CpUnit.Valid;
      handled := true;
      if PaymentDetails in isoDocDec.used {
        SendAnswer(PaymentDetails, true, e.enc, e.now);
        paymentDetailsDone, expectPaymentDetails := true, false;
      } else if Authorization in isoDocDec.used {
        if expectPaymentDetails && !paymentDetailsDone {
          SendAnswer(Authorization, false, e.enc, e.now);
        } else {
          ReplyIso(Authorization, ForChargeParameter, e);
        }
      } else {
        handled := false;
      }
    }

    method AwaitAuthorization(e: Env)
      requires Valid() && fsmState == ForAuthorization
      modifies this`fsmState, this`expectPaymentDetails, this`paymentDetailsDone, this`log, watchdog,
               sender, sender.payload, sender.lastPayload, cp`contactorFb
      ensures Valid() && Abs() == Handled(old(Abs()), e)
    {
      hide Answer, IsoAuthorization, AdvanceDin, CpUnit.Valid;
      if protocol == Iso2 {
        var handled := AuthorizeIso(e);
        if handled {
          return;
        }
      }
      if Authorization in dinDocDec.used {
        ReplyDin(Authorization, ForChargeParameter, e);
      }
    }

    method AwaitChargeParameter(e: Env)
      requires Valid() && fsmState == ForChargeParameter
      modifies this`fsmState, this`log, watchdog, sender, sender.payload, sender.lastPayload, cp`contactorFb
      ensures Valid() && Abs() == Handled(old(Abs()), e)
    {
      hide AdvanceIso, AdvanceDin, CpUnit.Valid;
      if protocol == Iso2 && ChargeParameter in isoDocDec.used {
        ReplyIso(ChargeParameter, ForCableCheck, e);
        return;
      }
      if ChargeParameter in dinDocDec.used {
        ReplyDin(ChargeParameter, ForCableCheck, e);
      }
    }

    method AwaitCableCheck(e: Env)
      requires Valid() && fsmState == ForCableCheck
      modifies this`fsmState, this`log, watchdog, sender, sender.payload, sender.lastPayload, cp`contactorFb
      ensures Valid() && Abs() == Handled(old(Abs()), e)
    {
      hide AdvanceIso, AdvanceDin, CpUnit.Valid;
      if protocol == Iso2 && CableCheck in isoDocDec.used {
        ReplyIso(CableCheck, ForPreCharge, e);
        return;
      }
      if CableCheck in dinDocDec.used {
        ReplyDin(CableCheck, ForPreCharge, e);
      }
    }

    method AwaitPreCharge(e: Env)
      requires Valid() && fsmState == ForPreCharge
      modifies this`fsmState, this`log, watchdog, sender, sender.payload, sender.lastPayload, cp`contactorFb
      ensures Valid() && Abs() == Handled(old(Abs()), e)
    {
      hide AdvanceIso, AdvanceDin, CpUnit.Valid;
      if protocol == Iso2 && PreCharge in isoDocDec.used {
        ReplyIso(PreCharge, ForPowerDelivery, e);
        return;
      }
      if PreCharge in dinDocDec.used {
        ReplyDin(PreCharge, ForPowerDelivery, e);
      }
    }

    method AwaitPowerDelivery(e: Env)
      requires Valid() && fsmState == ForPowerDelivery
      modifies this`fsmState, this`chargingActive, this`log, watchdog, dc,
               sender, sender.payload, sender.lastPayload, cp`contactorCmd, cp`contactorFb
      ensures Valid() && Abs() == Handled(old(Abs()), e)
    {
      hide AnswerIsoPower, AnswerDinPower, AdvanceDin, StartWatchdog, CpUnit.Valid;
      if protocol == Iso2 && PowerDelivery in isoDocDec.used {
        AnswerIsoPowerDelivery(e);
        WatchdogStartState(fsmState, e.now);
        return;
      }
      if PreCharge in dinDocDec.used {
        ReplyDin(PreCharge, ForPowerDelivery, e);
        return;
      }
      if PowerDelivery in dinDocDec.used {
        DinPowerDelivery(e);
      }
    }

    method DinPowerDelivery(e: Env)
      requires Valid() && fsmState == ForPowerDelivery
      modifies this`fsmState, this`chargingActive, this`log, dc,
               sender, sender.payload, sender.lastPayload, cp`contactorCmd, cp`contactorFb
      ensures Valid() && Abs() == AnswerDinPower(old(Abs()), e)
    {
      hide DinPower, Answer, ReportStatus, CpUnit.Valid;
      DinPowerKeeps(Abs(), e);
      var ok := DinProcessPowerDelivery(e);
      AnswerDinPowerDelivery(ok, e);
    }

    method AnswerDinPowerDelivery(ok: bool, e: Env)
      requires Valid()
      modifies this`fsmState, this`log, sender, sender.payload, sender.lastPayload, cp`contactorFb
      ensures Valid()
      ensures Abs() == Answer(ReportStatus(old(Abs()), e.status), PowerDelivery, ok, e.enc, e.now).(
                         phase := if dinDocDec.ready && ok then ForCurrentDemand else ForSessionStop)
    {
      hide Answer, ReportStatus, OrderOk, Progress, TallyOf, SendFrame, TcpSender.Sound, CpUnit.Valid;
      SendStatusAnswer(PowerDelivery, ok, e);
      fsmState := if dinDocDec.ready && ok then ForCurrentDemand else ForSessionStop;
    }

    static lemma DinPowerKeeps(t: State, e: Env)
      ensures DinPower(t, e).0.phase == t.phase && DinPower(t, e).0.dinDoc == t.dinDoc
    {
    }

    method DinPowerWhileCharging(e: Env)
      requires Valid() && fsmState == ForCurrentDemand
      modifies this`fsmState, this`chargingActive, this`log, dc,
               sender, sender.payload, sender.lastPayload, cp`contactorCmd, cp`contactorFb
      ensures Valid() && Abs() == AnswerDinPower(old(Abs()), e)
    {
      hide DinPower, Answer, CpUnit.Valid;
      DinPowerKeeps(Abs(), e);
      var ok := DinProcessPowerDelivery(e);
      AnswerWhileCharging(ok, e);
    }

    method AnswerWhileCharging(ok: bool, e: Env)
      requires Valid() && fsmState == ForCurrentDemand
      modifies this`fsmState, this`log, sender, sender.payload, sender.lastPayload
      ensures Valid()
      ensures Abs() == Answer(old(Abs()), PowerDelivery, ok, e.enc, e.now).(
                         phase := if dinDocDec.ready && ok then ForCurrentDemand else ForSessionStop)
    {
      hide Answer, OrderOk, Progress, TallyOf, SendFrame, TcpSender.Sound, CpUnit.Valid;
      SendAnswer(PowerDelivery, ok, e.enc, e.now);
      if !(dinDocDec.ready && ok) {
        fsmState := ForSessionStop;
      }
    }

    method IsoDemand(e: Env)
      requires Valid() && fsmState == ForCurrentDemand
      modifies this`chargingActive, this`log, watchdog, dc, sender, sender.payload, sender.lastPayload, cp`contactorFb
      ensures Valid() && Abs() == IsoCurrentDemand(old(Abs()), e)
    {
      hide SetTargets, Answer, ReportStatus, StartWatchdog, CpUnit.Valid;
      dc.SetTargetValues(isoDocDec.v, isoDocDec.i);
      chargingActive := true;
      SendStatusAnswer(CurrentDemand, true, e);
      WatchdogStartState(ForCurrentDemand, e.now);
    }

    method DinDemand(e: Env)
      requires Valid() && fsmState == ForCurrentDemand
      modifies this`chargingActive, this`log, dc, sender, sender.payload, sender.lastPayload,
               cp`contactorCmd, cp`contactorFb
      ensures Valid() && Abs() == DinCurrentDemand(old(Abs()), e)
    {
      hide SetTargets, DinPowerOff, Answer, ReportStatus, CpUnit.Valid;
      dc.SetTargetValues(dinDocDec.v, dinDocDec.i);
      if dinDocDec.complete {
        DinStopOutput(e.openBefore);
      }
      SendStatusAnswer(CurrentDemand, true, e);
    }

    /** The ISO half; `done` tells that nothing is handed on. */
    method IsoDuringDemand(e: Env) returns (done: bool)
      requires Valid() && fsmState == ForCurrentDemand
      modifies this`fsmState, this`chargingActive, this`log, watchdog, dc,
               sender, sender.payload, sender.lastPayload, cp`contactorCmd, cp`contactorFb
      ensures Valid()
      ensures done <==> PowerDelivery in isoDocDec.used || CurrentDemand in isoDocDec.used
      ensures Abs() == if PowerDelivery in isoDocDec.used then AnswerIsoPower(old(Abs()), e)
                       else if CurrentDemand in isoDocDec.used then IsoCurrentDemand(old(Abs()), e)
                       else if MeteringReceipt in isoDocDec.used then IsoMetering(old(Abs()), e)
                       else old(Abs())
    {
      hide AnswerIsoPower, IsoCurrentDemand, IsoMetering, CpUnit.Valid;
      done := true;
      if PowerDelivery in isoDocDec.used {
        AnswerIsoPowerDelivery(e);
      } else if CurrentDemand in isoDocDec.used {
        IsoDemand(e);
      } else {
        done := false;
        var _ := HandleIsoMetering(e);
      }
    }

    method AwaitCurrentDemand(e: Env)
      requires Valid() && fsmState == ForCurrentDemand
      modifies this`fsmState, this`chargingActive, this`log, watchdog, dc,
               sender, sender.payload, sender.lastPayload, cp`contactorCmd, cp`contactorFb
      ensures Valid() && Abs() == Handled(old(Abs()), e)
    {
      hide AnswerIsoPower, IsoCurrentDemand, IsoMetering, OnDin, CpUnit.Valid;
      var readings := e;
      if protocol == Iso2 {
        MeteringStays(Abs(), e);
        var done := IsoDuringDemand(e);
        if done {
          return;
        }
        if MeteringReceipt in isoDocDec.used {
          readings := SecondReadings(e);
        }
      }
      DinDuringDemand(readings);
    }

    method DinDuringDemand(e: Env)
      requires Valid() && fsmState == ForCurrentDemand
      modifies this`fsmState, this`chargingActive, this`log, dc,
               sender, sender.payload, sender.lastPayload, cp`contactorCmd, cp`contactorFb
      ensures Valid() && Abs() == OnDin(old(Abs()), e)
    {
      hide AnswerDinPower, DinCurrentDemand, DinMetering, CpUnit.Valid;
      if PowerDelivery in dinDocDec.used {
        DinPowerWhileCharging(e);
      } else if CurrentDemand in dinDocDec.used {
        DinDemand(e);
      } else {
        var _ := HandleMetering(e);
      }
    }

    method IsoSessionStop(e: Env)
      requires Valid()
      modifies this`fsmState, this`chargingActive, this`log, dc, sender, sender.payload, sender.lastPayload,
               cp`contactorCmd, cp`contactorFb
      ensures Valid() && Abs() == IsoStop(old(Abs()), e)
    {
      hide Answer, StopPower, CpUnit.Valid;
      SendAnswer(SessionStop, true, e.enc, e.now);
      StopEvsePowerOutput(e.openBefore);
      fsmState := ForAppProtocol;
    }

    /** The ISO half; `done` tells that nothing is handed on. */
    method IsoDuringStop(e: Env) returns (done: bool)
      requires Valid() && fsmState == ForSessionStop
      modifies this`fsmState, this`chargingActive, this`log, dc,
               sender, sender.payload, sender.lastPayload, cp`contactorCmd, cp`contactorFb
      ensures Valid() && protocol == old(protocol)
      ensures done <==> && MeteringReceipt !in isoDocDec.used
                        && (SessionStop in isoDocDec.used || PowerDelivery in isoDocDec.used)
      ensures Abs() == if MeteringReceipt in isoDocDec.used then IsoMetering(old(Abs()), e)
                       else if SessionStop in isoDocDec.used then IsoStop(old(Abs()), e)
                       else if PowerDelivery in isoDocDec.used then AnswerIsoPower(old(Abs()), e)
                       else old(Abs())
    {
      hide AnswerIsoPower, IsoStop, IsoMetering, CpUnit.Valid;
      done := false;
      var handled := HandleIsoMetering(e);
      if !handled {
        if SessionStop in isoDocDec.used {
          IsoSessionStop(e);
          done := true;
        } else if PowerDelivery in isoDocDec.used {
          AnswerIsoPowerDelivery(e);
          done := true;
        }
      }
    }

    method AwaitSessionStop(e: Env)
      requires Valid() && fsmState == ForSessionStop
      modifies this`fsmState, this`chargingActive, this`log, dc,
               sender, sender.payload, sender.lastPayload, cp`contactorCmd, cp`contactorFb
      ensures Valid() && Abs() == Handled(old(Abs()), e)
    {
      hide Answer, ReportStatus, AnswerIsoPower, IsoStop, IsoMetering, OnDin, StartWatchdog, CpUnit.Valid;
      var readings := e;
      if protocol == Iso2 {
        MeteringStays(Abs(), e);
        var done := IsoDuringStop(e);
        if done {
          return;
        }
        if MeteringReceipt in isoDocDec.used {
          readings := SecondReadings(e);
        }
      }
      DinDuringStop(readings);
    }

    static lemma MeteringStays(t: State, e: Env)
      ensures IsoMetering(t, e).phase == t.phase
    {
      hide Answer, ReportStatus;
    }

    method DinLatePowerDelivery(e: Env)
      requires Valid()
      modifies this`fsmState, this`chargingActive, this`log, sender, sender.payload, sender.lastPayload
      ensures Valid() && Abs() == DinLatePower(old(Abs()), e)
    {
      hide Answer, CpUnit.Valid;
      SendAnswer(PowerDelivery, true, e.enc, e.now);
      chargingActive := dinDocDec.ready;
      if dinDocDec.ready {
        fsmState := ForCurrentDemand;
      }
    }

    method DinSessionStop(e: Env)
      requires Valid()
      modifies this`fsmState, this`chargingActive, this`log, sender, sender.payload, sender.lastPayload
      ensures Valid()
      ensures Abs() == Answer(old(Abs()), SessionStop, true, e.enc, e.now).(charging := false, phase := ForAppProtocol)
    {
      hide Answer, CpUnit.Valid;
      SendAnswer(SessionStop, true, e.enc, e.now);
      chargingActive, fsmState := false, ForAppProtocol;
    }

    method DinDuringStop(e: Env)
      requires Valid() && fsmState == ForSessionStop
      modifies this`fsmState, this`chargingActive, this`log, sender, sender.payload, sender.lastPayload, cp`contactorFb
      ensures Valid() && Abs() == OnDin(old(Abs()), e)
    {
      hide Answer, DinMetering, DinLatePower, OrderOk, Progress, TallyOf, SendFrame, TcpSender.Sound, CpUnit.Valid;
      var handled := HandleMetering(e);
      if handled {
        return;
      }
      if SessionStop in dinDocDec.used {
        DinSessionStop(e);
      } else if PowerDelivery in dinDocDec.used {
        DinLatePowerDelivery(e);
      }
    }

    // -------------------------------------------------------------- decodeV2GTP

    method HandleMessage(d: Decoded, e: Env)
      requires Valid() && rxDataLen == 0
      modifies this, watchdog, dc, sender, sender.payload, sender.lastPayload, cp`contactorCmd, cp`contactorFb
      ensures Valid() && Abs() == Dialogue(old(Abs()), d, e) && rxDataLen == 0
    {
      hide OnIso, OnDin, CpUnit.Valid;
      match fsmState
      case ForAppProtocol =>
        if d.isRequest {
          AwaitAppProtocol(d.apps, e.now);
        }
      case ForSessionSetup => AwaitSessionSetup(e);
      case ForServiceDiscovery => AwaitServiceDiscovery(e);
      case ForPaymentSelection => AwaitPaymentSelection(e);
      case ForAuthorization => AwaitAuthorization(e);
      case ForChargeParameter => AwaitChargeParameter(e);
      case ForCableCheck => AwaitCableCheck(e);
      case ForPreCharge => AwaitPreCharge(e);
      case ForPowerDelivery => AwaitPowerDelivery(e);
      case ForCurrentDemand => AwaitCurrentDemand(e);
      case ForSessionStop => AwaitSessionStop(e);
    }

    /** The decoder for the current phase and protocol leaves its document; the input is consumed. */
    method RunDecoder(d: Decoded)
      requires Valid()
      modifies this`isoDocDec, this`dinDocDec, this`rxDataLen
      ensures Valid() && Abs() == Decode(old(Abs()), d) && rxDataLen == 0
    {
      hide CpUnit.Valid;
      if fsmState != ForAppProtocol {
        if protocol == Iso2 {
          isoDocDec := d.iso;
        } else {
          dinDocDec := d.din;
        }
      }
      rxDataLen := 0;
    }

    method DecodeV2GTP(d: Decoded, e: Env)
      requires Valid()
      modifies this, watchdog, dc, sender, sender.payload, sender.lastPayload, cp`contactorCmd, cp`contactorFb
      ensures Valid() && Abs() == OnFrame(old(Abs()), d, e) && rxDataLen == 0
    {
      hide Dialogue, OrderOk, Progress, TallyOf, SendFrame, TcpSender.Sound, CpUnit.Valid;
      RunDecoder(d);
      if !d.ok {
        return;
      }
      HandleMessage(d, e);
      assert Abs().rx == [];
    }

    // -------------------------------------------------------------- tcp_bufferPayload

    static lemma FrameIgnoresRx(t: State, rx: Data, d: Decoded, e: Env)
      ensures OnFrame(t.(rx := rx), d, e) == OnFrame(t, d, e)
    {
      hide Dialogue;
      assert Decode(t.(rx := rx), d) == Decode(t, d);
    }

    static lemma ResetIgnoresRx(t: State, rx: Data, openBefore: bool)
      ensures ResetSession(t.(rx := rx), openBefore) == ResetSession(t, openBefore)
    {
      hide OrderOk, Progress, TallyOf;
    }

    /** Moves what lies behind the first n bytes to the front. */
    method KeepRemainder(n: nat, remainderLen: byte)
      requires Valid() && n + remainderLen <= V2gtp.RX_CAPACITY
      modifies this`rxDataLen, rxData
      ensures Valid() && rxData[..rxDataLen] == old(rxData[n..n + remainderLen])
      ensures Abs() == old(Abs()).(rx := old(rxData[n..n + remainderLen]))
    {
      hide CpUnit.Valid;
      if remainderLen > 0 {
        MoveDown(rxData, n, remainderLen);
      }
      rxDataLen := remainderLen;
    }

    /** Takes one frame of length n from the front of the buffer, handles it and moves the rest down. */
    method ConsumeFrame(n: nat, d: Decoded, e: Env)
      requires Valid() && n <= rxDataLen
      modifies this, watchdog, dc, sender, sender.payload, sender.lastPayload, cp`contactorCmd, cp`contactorFb, rxData
      ensures Valid() && rxDataLen == old(rxDataLen) - n
      ensures rxData[..rxDataLen] == old(rxData[n..rxDataLen])
      ensures Abs() == OnFrame(old(Abs()), d, e).(rx := old(rxData[n..rxDataLen]))
    {
      hide OnFrame, CpUnit.Valid;
      var remainderLen := rxDataLen - n;
      FrameIgnoresRx(Abs(), rxData[..n], d, e);
      rxDataLen := n;
      DecodeV2GTP(d, e);
      KeepRemainder(n, remainderLen);
    }

    /** The reset on a malformed or oversized input. */
    method DropInput(openBefore: bool)
      requires Valid()
      modifies this, watchdog, dc, sender, cp`contactorCmd, cp`contactorFb
      ensures Valid() && Abs() == ResetSession(old(Abs()), openBefore)
    {
      hide ResetSession, CpUnit.Valid;
      ResetIgnoresRx(Abs(), [], openBefore);
      rxDataLen := 0;
      ResetHlcSession(openBefore);
    }

    /** What the header at the front of the buffer decides. */
    method InspectFront() returns (r: V2gtp.Next)
      requires Valid()
      ensures r == V2gtp.NextFrame(rxData[..rxDataLen])
    {
      hide CpUnit.Valid;
      ghost var b := rxData[..rxDataLen];
      if rxDataLen < V2gtp.HEADER {
        return V2gtp.Wait;
      }
      if rxData[0] != 0x01 || rxData[1] != 0xFE {
        return V2gtp.Bad;
      }
      var payloadType := rxData[2] as int * 256 + rxData[3];
      var payloadLen := rxData[4] as int * 0x100_0000 + rxData[5] as int * 0x1_0000
                        + rxData[6] as int * 0x100 + rxData[7];
      var frameLen := (V2gtp.HEADER + payloadLen) % TWO32;
      assert payloadLen == Be32(b, 4) && payloadType == Be16(b, 2);
      if frameLen > V2gtp.RX_CAPACITY {
        return V2gtp.Bad;
      }
      if rxDataLen < frameLen {
        return V2gtp.Wait;
      }
      if payloadType != V2gtp.EXI_TYPE {
        return V2gtp.Bad;
      }
      return V2gtp.Take(frameLen);
    }

    /** n frames of d are handled and b is what the buffer still holds. */
    static ghost predicate Remaining(d: V2gtp.Deframed, n: nat, b: Data) {
      n <= |d.frames| && V2gtp.Deframe(b) == V2gtp.Deframed(d.frames[n..], d.rest, d.end)
    }

    static lemma LoopEnds(t: State, d: V2gtp.Deframed, n: nat, b: Data, o: Oracle, openBefore: bool)
      requires Remaining(d, n, b)
      ensures var s := OnFrames(t, n, o).(rx := b);
              match V2gtp.NextFrame(b)
              case Bad => d.end == V2gtp.Rejected && HandleDeframed(t, d, o, openBefore) == ResetSession(s, openBefore)
              case Wait => d.end == V2gtp.Pending && HandleDeframed(t, d, o, openBefore) == s
              case Take(k) => k == 0 ==> d.end == V2gtp.Spinning && HandleDeframed(t, d, o, openBefore) == s
    {
      hide OnFrame, ResetSession, V2gtp.NextFrame, V2gtp.Deframe;
      V2gtp.DeframeStep(b);
      ResetIgnoresRx(OnFrames(t, n, o), b, openBefore);
    }

    static lemma LoopGoesOn(t: State, d: V2gtp.Deframed, n: nat, b: Data, o: Oracle)
      requires Remaining(d, n, b) && V2gtp.NextFrame(b).Take? && V2gtp.NextFrame(b).len > 0
      ensures var k := V2gtp.NextFrame(b).len;
              && Remaining(d, n + 1, b[k..])
              && OnFrame(OnFrames(t, n, o).(rx := b), o(n).d, o(n).e) == OnFrames(t, n + 1, o)
    {
      hide OnFrame, V2gtp.NextFrame, V2gtp.Deframe;
      var k := V2gtp.NextFrame(b).len;
      V2gtp.DeframeStep(b);
      assert d.frames[n..][1..] == d.frames[n + 1..] == V2gtp.Deframe(b[k..]).frames;
      FrameIgnoresRx(OnFrames(t, n, o), b, o(n).d, o(n).e);
    }

    /** One pass of the loop: n frames are handled, and unless the loop ends one more is. */
    method HandleFront(ghost t: State, ghost d: V2gtp.Deframed, n: nat, o: Oracle, openBefore: bool)
      returns (next: V2gtp.Next)
      requires Valid() && Abs() == OnFrames(t, n, o).(rx := rxData[..rxDataLen])
      requires Remaining(d, n, rxData[..rxDataLen])
      modifies this, watchdog, dc, sender, sender.payload, sender.lastPayload, cp`contactorCmd, cp`contactorFb, rxData
      ensures Valid()
      ensures if next.Take? && next.len > 0
              then Abs() == OnFrames(t, n + 1, o).(rx := rxData[..rxDataLen])
                   && Remaining(d, n + 1, rxData[..rxDataLen]) && rxDataLen < old(rxDataLen)
              else Abs() == HandleDeframed(t, d, o, openBefore) && (next.Take? <==> d.end == V2gtp.Spinning)
    {
      hide OnFrame, OnFrames, ResetSession, CpUnit.Valid, V2gtp.NextFrame, HandleDeframed, Remaining;
      ghost var b := rxData[..rxDataLen];
      LoopEnds(t, d, n, b, o, openBefore);
      next := InspectFront();
      match next
      case Wait =>
      case Bad => DropInput(openBefore);
      case Take(len) =>
        if len > 0 {
          LoopGoesOn(t, d, n, b, o);
          assert b[len..] == rxData[len..rxDataLen];
          ConsumeFrame(len, o(n).d, o(n).e);
        }
    }

    /** The loop of tcp_bufferPayload. `spins` reports the input on which the loop of the program never
        ends; the model stops there. */
    method HandleBuffered(o: Oracle, openBefore: bool) returns (spins: bool)
      requires Valid()
      modifies this, watchdog, dc, sender, sender.payload, sender.lastPayload, cp`contactorCmd, cp`contactorFb, rxData
      ensures Valid()
      ensures var d := V2gtp.Deframe(old(rxData[..rxDataLen]));
              Abs() == HandleDeframed(old(Abs()), d, o, openBefore) && (spins <==> d.end == V2gtp.Spinning)
    {
      hide OnFrame, OnFrames, CpUnit.Valid, V2gtp.Deframe, HandleDeframed, Remaining;
      ghost var t := Abs();
      ghost var all := V2gtp.Deframe(t.rx);
      NothingHandled(t, o);
      var n: nat := 0;
      while true
        invariant Valid()
        invariant Abs() == OnFrames(t, n, o).(rx := rxData[..rxDataLen])
        invariant Remaining(all, n, rxData[..rxDataLen])
        decreases rxDataLen
      {
        var next := HandleFront(t, all, n, o, openBefore);
        if !next.Take? || next.len == 0 {
          return next.Take?;
        }
        n := n + 1;
      }
    }

    static lemma NothingHandled(t: State, o: Oracle)
      ensures OnFrames(t, 0, o).(rx := t.rx) == t
      ensures Remaining(V2gtp.Deframe(t.rx), 0, t.rx)
    {
      hide V2gtp.Deframe;
    }

    /** tcp_bufferPayload. */
    method BufferIncoming(payload: Data, o: Oracle, openBefore: bool) returns (spins: bool)
      requires Valid()
      modifies this, watchdog, dc, sender, sender.payload, sender.lastPayload, cp`contactorCmd, cp`contactorFb, rxData
      ensures Valid() && Abs() == BufferPayload(old(Abs()), payload, o, openBefore)
      ensures spins <==> V2gtp.Feed(old(rxData[..rxDataLen]), payload).end == V2gtp.Spinning
    {
      hide OnFrames, ResetSession, CpUnit.Valid, V2gtp.Deframe, V2gtp.Accept;
      spins := false;
      if |payload| > 0 {
        if rxDataLen + |payload| > V2gtp.RX_CAPACITY {
          DropInput(openBefore);
        } else {
          TakeIn(payload);
          ghost var rx := rxData[..rxDataLen];
          RestIgnored(old(Abs()), rx, V2gtp.Deframe(rx), o, openBefore);
          spins := HandleBuffered(o, openBefore);
        }
      }
    }

    static lemma {:induction false} FramesIgnoreRx(t: State, rx: Data, n: nat, o: Oracle)
      ensures n > 0 ==> OnFrames(t.(rx := rx), n, o) == OnFrames(t, n, o)
      ensures OnFrames(t.(rx := rx), n, o).(rx := []) == OnFrames(t, n, o).(rx := [])
    {
      if n > 0 {
        hide OnFrame;
        FramesIgnoreRx(t, rx, n - 1, o);
        if n == 1 {
          assert OnFrames(t.(rx := rx), 0, o) == t.(rx := rx) && OnFrames(t, 0, o) == t;
          FrameIgnoresRx(t, rx, o(0).d, o(0).e);
        }
      }
    }

    static lemma RestIgnored(t: State, rx: Data, d: V2gtp.Deframed, o: Oracle, openBefore: bool)
      ensures HandleDeframed(t.(rx := rx), d, o, openBefore) == HandleDeframed(t, d, o, openBefore)
    {
      hide OnFrames, ResetSession;
      var n := |d.frames|;
      FramesIgnoreRx(t, rx, n, o);
      ResetIgnoresRx(OnFrames(t.(rx := rx), n, o), [], openBefore);
      ResetIgnoresRx(OnFrames(t, n, o), [], openBefore);
      assert OnFrames(t.(rx := rx), n, o).(rx := d.rest) == OnFrames(t, n, o).(rx := []).(rx := d.rest);
    }

    method TakeIn(payload: Data)
      requires Valid() && rxDataLen + |payload| <= V2gtp.RX_CAPACITY
      modifies this`rxDataLen, rxData
      ensures Valid() && Abs() == old(Abs()).(rx := rxData[..rxDataLen])
      ensures rxData[..rxDataLen] == V2gtp.Accept(old(rxData[..rxDataLen]), payload)
    {
      hide CpUnit.Valid;
      ghost var rx := rxData[..rxDataLen];
      CopyInto(rxData, rxDataLen, payload);
      ghost var n := rxDataLen + |payload|;
      assert rxData[..n] == rx + payload;
      rxDataLen := (rxDataLen + |payload|) % 256;
      assert rxData[..rxDataLen] == rxData[..n][..rxDataLen];
    }

    // -------------------------------------------------------------- evaluateTcpPacket

    method CloseConnection(openBefore: bool)
      requires Valid()
      modifies this, watchdog, dc, sender, cp`contactorCmd, cp`contactorFb
      ensures Valid() && Abs() == Close(old(Abs()), openBefore)
    {
      hide ResetSession, CpUnit.Valid;
      sender.tcpState := Closed;
      AwaitingForgotten(Abs(), openBefore);
      sender.awaitingAck := false;
      ResetHlcSession(openBefore);
    }

    /** The pending flag is cleared once before a reset and once within. */
    static lemma AwaitingForgotten(t: State, openBefore: bool)
      ensures ResetSession(t.(tx := t.tx.(awaiting := false)), openBefore) == ResetSession(t, openBefore)
    {
      hide OrderOk, Progress, TallyOf;
    }

    /** A connection request. */
    method TakeSyn(s: Seg)
      requires Valid()
      modifies sender
      ensures Valid() && Abs() == old(Abs()).(tx := OnSyn(old(Abs().tx), s))
    {
      hide Put, CpUnit.Valid;
      if sender.tcpState == Closed {
        sender.AnswerSyn(s.srcPort, FIRST_SEQ, (s.seqNr + 1) % TWO32);
      }
    }

    method TakeData(s: Seg, o: Oracle, openBefore: bool) returns (spins: bool)
      requires Valid()
      modifies this, watchdog, dc, sender, sender.payload, sender.lastPayload, cp`contactorCmd, cp`contactorFb, rxData
      ensures Valid() && Abs() == OnData(old(Abs()), s, o, openBefore)
      ensures spins <==> V2gtp.Feed(old(rxData[..rxDataLen]), s.payload).end == V2gtp.Spinning
    {
      hide Put, BufferPayload, CpUnit.Valid, V2gtp.Feed;
      sender.AcknowledgeUpTo(s.ackNr, (s.seqNr + |s.payload|) % TWO32);
      spins := BufferIncoming(s.payload, o, openBefore);
    }

    method TakeFin(s: Seg, openBefore: bool)
      requires Valid()
      modifies this, watchdog, dc, sender, cp`contactorCmd, cp`contactorFb
      ensures Valid() && Abs() == OnFin(old(Abs()), s, openBefore)
    {
      hide Put, Close, CpUnit.Valid;
      sender.AcknowledgeUpTo(sender.seqNr, (s.seqNr + |s.payload| + 1) % TWO32);
      CloseConnection(openBefore);
    }

    /** A segment of an established connection; after a spin nothing more happens. */
    method TakeEstablished(s: Seg, o: Oracle, openBefore: bool) returns (spins: bool)
      requires Valid()
      modifies this, watchdog, dc, sender, sender.payload, sender.lastPayload, cp`contactorCmd, cp`contactorFb, rxData
      ensures Valid() && (!spins ==> Abs() == OnEstablished(old(Abs()), s, o, openBefore))
      ensures spins <==> && 0 < |s.payload| < V2gtp.RX_CAPACITY
                         && V2gtp.Feed(old(rxData[..rxDataLen]), s.payload).end == V2gtp.Spinning
    {
      hide OnData, OnFin, ResetSession, OnAck, CpUnit.Valid, V2gtp.Feed;
      spins := false;
      if |s.payload| > 0 {
        if |s.payload| >= V2gtp.RX_CAPACITY {
          ResetHlcSession(openBefore);
          return;
        }
        spins := TakeData(s, o, openBefore);
        if spins {
          return;
        }
      }
      if s.ack {
        sender.TakeAck(s.ackNr);
      }
      if s.fin {
        TakeFin(s, openBefore);
      }
    }

    /** evaluateTcpPacket, the header already found valid. */
    method EvaluateTcpPacket(s: Seg, o: Oracle, e: Env) returns (spins: bool)
      requires Valid()
      modifies this, watchdog, dc, sender, sender.payload, sender.lastPayload, cp`contactorCmd, cp`contactorFb, rxData
      ensures Valid() && (!spins ==> Abs() == OnSegment(old(Abs()), s, o, e))
      ensures spins ==> V2gtp.Feed(old(rxData[..rxDataLen]), s.payload).end == V2gtp.Spinning
    {
      hide OnEstablished, Close, OnSyn, CpUnit.Valid, V2gtp.Feed;
      spins := false;
      if s.dstPort != SECC_PORT {
        return;
      }
      lastActivity := e.now;
      if s.rst {
        CloseConnection(e.openBefore);
        return;
      }
      if s.syn && !s.ack {
        TakeSyn(s);
        return;
      }
      if s.ack && sender.tcpState == SynAck {
        if s.ackNr == (sender.seqNr + 1) % TWO32 {
          sender.tcpState := Established;
          lastActivity := e.now;
        }
        return;
      }
      if sender.tcpState != Established {
        return;
      }
      spins := TakeEstablished(s, o, e.openBefore);
    }

    // -------------------------------------------------------------- tcp_tick and transport events

    method RetransmitOrClose(e: Env)
      requires Valid()
      modifies this, watchdog, dc, sender, sender.payload, cp`contactorCmd, cp`contactorFb
      ensures Valid() && Abs() == RetryStage(old(Abs()), e)
    {
      hide Retransmit, Close, CpUnit.Valid;
      if sender.awaitingAck && sender.lastPayloadLen > 0
         && Sub32(e.now, sender.lastTxTimestamp) > RETRANSMIT_TIMEOUT_MS {
        if sender.retransmitAttempts < MAX_RETRANSMIT {
          sender.retransmitAttempts := sender.retransmitAttempts + 1;
          sender.RetransmitPending(e.now);
        } else {
          CloseConnection(e.openBefore);
        }
      }
    }

    method CheckWatchdog(e: Env)
      requires Valid()
      modifies this, watchdog, dc, sender, cp`contactorCmd, cp`contactorFb
      ensures Valid() && Abs() == WatchdogStage(old(Abs()), e)
    {
      hide ResetSession, Check, TransportReset, CpUnit.Valid;
      var verdict := watchdog.CheckNow(e.now);
      if verdict == Timeout {
        ResetHlcSession(e.openBefore);
      } else if verdict == Fatal {
        ResetHlcSession(e.openBefore);
        ResetTransport(e);
      }
    }

    method Tick(e: Env)
      requires Valid()
      modifies this, watchdog, dc, sender, sender.payload, cp`contactorCmd, cp`contactorFb
      ensures Valid() && Abs() == TcpTick(old(Abs()), e)
    {
      hide RetryStage, WatchdogStage, Close, CpUnit.Valid;
      if sender.tcpState == Established {
        RetransmitOrClose(e);
        if lastActivity != 0 && Sub32(e.now, lastActivity) > IDLE_TIMEOUT_MS {
          CloseConnection(e.openBefore);
        }
      }
      CheckWatchdog(e);
    }

    method ResetTransport(e: Env)
      requires Valid()
      modifies this, watchdog, dc, sender, cp`contactorCmd, cp`contactorFb
      ensures Valid() && Abs() == TransportReset(old(Abs()), e)
    {
      hide ResetSession, CpUnit.Valid;
      ResetHlcSession(e.openBefore);
      sender.tcpState := Closed;
    }

    method ConnectTransport(e: Env)
      requires Valid()
      modifies this`lastActivity, sender
      ensures Valid() && Abs() == TransportConnected(old(Abs()), e)
    {
      hide CpUnit.Valid;
      sender.tcpState := Established;
      lastActivity := e.now;
    }

    method ProcessSocketPayload(payload: Data, o: Oracle, e: Env) returns (spins: bool)
      requires Valid()
      modifies this, watchdog, dc, sender, sender.payload, sender.lastPayload, cp`contactorCmd, cp`contactorFb, rxData
      ensures Valid() && Abs() == SocketPayload(old(Abs()), payload, o, e)
      ensures spins <==> V2gtp.Feed(old(rxData[..rxDataLen]), payload).end == V2gtp.Spinning
    {
      hide BufferPayload, CpUnit.Valid, V2gtp.Feed;
      lastActivity := e.now;
      spins := BufferIncoming(payload, o, e.openBefore);
    }

    /** The head of the 20 ms timer: a pilot burst is classified, and without a vehicle the contactor is
        opened and then the output disabled. */
    method PilotCheck(plateau: int, peak: int, openBefore: bool)
      requires Valid()
      modifies cp, cp.ring, dc
      ensures Valid() && Abs() == CpCheck(old(Abs()), cp.IsConnected(), openBefore)
      ensures cp.history == old(cp.history) + [Burst(plateau, peak)]
    {
      hide EnableOutput, CpUnit.Valid;
      cp.Tick(plateau, peak, openBefore, false);
      if !cp.IsConnected() {
        if cp.contactorCmd {
          // the pilot tick has just opened it
          assert false;
        }
        if dc.enabled {
          dc.Enable(false);
        }
      }
    }

    method RampOutput(now: u32)
      requires Valid()
      modifies dc
      ensures Valid() && Abs() == Step(old(Abs()), DcTick(now))
    {
      hide RampTick, CpUnit.Valid;
      dc.RampTickNow(now);
    }
  }
}
