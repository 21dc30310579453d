/** When a frame re-reads the contactor's auxiliary contact, and when it sets the charging flag. */
module HlcContact {
  import opened Bytes
  import opened CpControl
  import opened DcCan
  import opened TcpSender
  import opened Hlc
  import opened TcpLink
  import opened HlcFindings
  import opened HlcAnswers
  import opened HlcTargets
  import opened HlcPhases

  /** The remembered contact after one reading, taken or not. */
  function Read(r: Relay, taken: bool, pin: bool): Relay {
    if taken then r.(fb := if r.wired then pin else r.cmd) else r
  }

  /** The ISO branch ends the handling with an answer that reports a status. */
  predicate IsoReads(t: State) {
    && t.connected
    && (|| t.phase == ForChargeParameter || t.phase == ForCableCheck || t.phase == ForPreCharge
        || t.phase == ForCurrentDemand)
  }

  /** The DIN document gets an answer that reports a status, or is a metering receipt, which reads the contact
      even without a vehicle. */
  predicate DinReads(t: State) {
    var used := t.dinDoc.used;
    match t.phase
    case ForChargeParameter => ChargeParameter in used && t.connected
    case ForCableCheck => CableCheck in used && t.connected
    case ForPreCharge => PreCharge in used && t.connected
    case ForPowerDelivery => PreCharge in used && t.connected
    case ForCurrentDemand => if CurrentDemand in used then t.connected else MeteringReceipt in used
    case ForSessionStop => MeteringReceipt in used
    case _ => false
  }

  /** The ISO branch commands the contactor. */
  predicate IsoDrives(t: State) {
    var used := t.isoDoc.used;
    || PowerActs(t) || Refuses(t)
    || (t.phase == ForSessionStop && SessionStop in used && MeteringReceipt !in used)
  }

  /** The DIN branch commands the contactor. */
  predicate DinDrives(t: State) {
    var used := t.dinDoc.used;
    || (t.phase == ForPowerDelivery && PowerDelivery in used && PreCharge !in used)
    || (t.phase == ForCurrentDemand && PowerDelivery in used)
    || (DinDemand(t) && t.dinDoc.complete)
  }

  // ---------------------------------------------------------------- single answers

  lemma ReportReads(t: State, pin: bool)
    ensures ReportStatus(t, pin).relay == Read(t.relay, t.connected, pin)
  {
  }

  lemma AdvanceReads(t: State, m: Msg, next: Phase, e: Env)
    ensures var status := t.connected && (m == ChargeParameter || m == CableCheck || m == PreCharge);
            && AdvanceIso(t, m, next, e).relay == Read(t.relay, status, e.status)
            && AdvanceDin(t, m, next, e).relay == Read(t.relay, status, e.status)
  {
    hide Answer, ReportStatus, StartWatchdog;
    ReportReads(t, e.status);
  }

  lemma DemandReads(t: State, e: Env)
    ensures var r := IsoCurrentDemand(t, e); r.relay == Read(t.relay, t.connected, e.status) && r.charging
    ensures !t.dinDoc.complete ==> var r := DinCurrentDemand(t, e);
              r.relay == Read(t.relay, t.connected, e.status) && r.charging == t.charging
  {
    hide Answer, ReportStatus, StartWatchdog, SetTargets, Read;
    ReportReads(t.(dc := SetTargets(t.dc, t.isoDoc.v, t.isoDoc.i), charging := true), e.status);
    ReportReads(t.(dc := SetTargets(t.dc, t.dinDoc.v, t.dinDoc.i)), e.status);
  }

  lemma MeteringReads(t: State, e: Env)
    ensures var r := IsoMetering(t, e);
            && r.relay == Read(t.relay, t.connected, e.status)
            && r.phase == t.phase && r.dinDoc == t.dinDoc && r.connected == t.connected
    ensures DinMetering(t, e).relay == Read(t.relay, true, e.status)
    ensures DinLatePower(t, e).relay == t.relay
  {
    hide Answer, ReportStatus;
    ReportReads(t, e.status);
  }

  lemma AuthorizationReads(t: State, e: Env)
    ensures IsoAuthorization(t, e).relay == t.relay
    ensures t.isoDoc.payment != OtherPayment ==> IsoPayment(t, e).relay == t.relay
  {
    hide Answer, AdvanceIso, ResetSession, StartWatchdog;
    AdvanceReads(t, Authorization, ForChargeParameter, e);
  }

  // ---------------------------------------------------------------- the DIN branch

  lemma EarlyDinReads(t: State, e: Env)
    requires t.phase != ForPowerDelivery && t.phase != ForCurrentDemand && t.phase != ForSessionStop
    ensures OnDin(t, e).relay == Read(t.relay, DinReads(t), e.status)
  {
    hide AdvanceDin;
    if DinTable(t.phase).Some? {
      var (m, next) := DinTable(t.phase).value;
      assert OnDin(t, e) == if m in t.dinDoc.used then AdvanceDin(t, m, next, e) else t;
      hide OnDin;
      AdvanceReads(t, m, next, e);
    } else if t.phase == ForPaymentSelection {
      AdvanceReads(t, PaymentSelection, ForAuthorization, e);
    }
  }

  lemma PowerDinReads(t: State, e: Env)
    requires t.phase == ForPowerDelivery && !DinDrives(t)
    ensures OnDin(t, e).relay == Read(t.relay, DinReads(t), e.status)
  {
    hide AdvanceDin, AnswerDinPower;
    AdvanceReads(t, PreCharge, ForPowerDelivery, e);
  }

  lemma DemandDinReads(t: State, e: Env)
    requires t.phase == ForCurrentDemand && !DinDrives(t)
    ensures OnDin(t, e).relay == Read(t.relay, DinReads(t), e.status)
  {
    hide AnswerDinPower, DinCurrentDemand, DinMetering;
    if CurrentDemand in t.dinDoc.used {
      DemandReads(t, e);
    } else if MeteringReceipt in t.dinDoc.used {
      MeteringReads(t, e);
    }
  }

  lemma StopDinReads(t: State, e: Env)
    requires t.phase == ForSessionStop
    ensures OnDin(t, e).relay == Read(t.relay, DinReads(t), e.status)
  {
    hide OnDin, Answer, DinMetering, DinLatePower;
    DinStopShape(t, e);
    MeteringReads(t, e);
  }

  lemma DinContact(t: State, e: Env)
    requires !DinDrives(t)
    ensures OnDin(t, e).relay == Read(t.relay, DinReads(t), e.status)
  {
    hide OnDin, Read, DinReads, DinDrives;
    match t.phase
    case ForPowerDelivery => PowerDinReads(t, e);
    case ForCurrentDemand => DemandDinReads(t, e);
    case ForSessionStop => StopDinReads(t, e);
    case _ => EarlyDinReads(t, e);
  }

  // ---------------------------------------------------------------- the ISO branch

  lemma OwnReads(t: State, e: Env)
    requires t.protocol == Iso2 && t.phase != ForAppProtocol && !Falls(t) && !IsoDrives(t)
    ensures OnIso(t, e).relay == Read(t.relay, IsoReads(t), e.status)
  {
    hide AdvanceIso, IsoCurrentDemand, IsoPayment, IsoAuthorization, Answer, AnswerIsoPower, IsoMetering, IsoStop,
         OnDin, StartWatchdog;
    if IsoTable(t.phase).Some? {
      hide OnIso, Falls;
      TableShape(t, e);
      AdvanceReads(t, IsoTable(t.phase).value.0, IsoTable(t.phase).value.1, e);
    } else if t.phase == ForCurrentDemand {
      DemandReads(t, e);
    } else {
      AuthorizationReads(t, e);
    }
  }

  /** The contact is read, when the frame does not command the contactor, exactly by answers that report a
      status while a vehicle is connected, and by DIN metering receipts in any case; an ISO metering receipt
      that falls through reads it first, and the answer that follows may read it again. */
  lemma ContactExactly(t: State, d: Decoded, e: Env)
    requires t.phase != ForAppProtocol
    ensures var r := Dialogue(t, d, e).relay;
            && (t.protocol == Din && !DinDrives(t) ==> r == Read(t.relay, DinReads(t), e.status))
            && (t.protocol == Iso2 && !Falls(t) && !IsoDrives(t) ==> r == Read(t.relay, IsoReads(t), e.status))
            && (t.protocol == Iso2 && Falls(t) && !MeteringFirst(t) && !DinDrives(t) ==>
                  r == Read(t.relay, DinReads(t), e.status))
            && (t.protocol == Iso2 && MeteringFirst(t) && !DinDrives(t) ==>
                  r == Read(Read(t.relay, t.connected, e.status), DinReads(t), e.status2))
  {
    hide OnIso, OnDin, IsoMetering, Falls, MeteringFirst, IsoDrives, Read;
    if t.protocol == Din {
      if !DinDrives(t) {
        DinContact(t, e);
      }
    } else if MeteringFirst(t) {
      FallsToo(t);
      if !DinDrives(t) {
        MeteringShape(t, e);
        MeteringReads(t, e);
        DinContact(IsoMetering(t, e), SecondReadings(e));
      }
    } else if Falls(t) {
      if !DinDrives(t) {
        FallsPlain(t, e);
        DinContact(t, e);
      }
    } else if !IsoDrives(t) {
      OwnReads(t, e);
    }
  }

  lemma FallsToo(t: State)
    requires MeteringFirst(t)
    ensures Falls(t)
  {
  }

  /** After an ISO PowerDelivery that is acted on, a connected vehicle's contact is read once more; without one
      it is remembered closed exactly after a confirmed start. */
  lemma PowerReads(t: State, d: Decoded, e: Env)
    requires PowerActs(t)
    ensures var r := Dialogue(t, d, e).relay;
            var started := t.isoDoc.progress == Begin && Closes(t.relay, e);
            r.fb <==> if t.connected then (if r.wired then e.status else r.cmd)
                      else started || (t.isoDoc.progress != Begin && WeldedShown(t.relay, e))
  {
    hide Dialogue, AnswerIsoPower, StartWatchdog;
    PowerShape(t, d, e);
    PowerContact(t, e);
    WatchLeads(AnswerIsoPower(t, e), AnswerIsoPower(t, e).phase, e.now);
  }

  /** Opening an open contactor again finds a contact that is still remembered, and still reads, closed. */
  predicate WeldedShown(r: Relay, e: Env) {
    r.wired && !r.cmd && r.fb && e.openBefore
  }

  lemma PowerContact(t: State, e: Env)
    ensures var r := AnswerIsoPower(t, e).relay;
            var started := t.isoDoc.progress == Begin && Closes(t.relay, e);
            r.fb <==> if t.connected then (if r.wired then e.status else r.cmd)
                      else started || (t.isoDoc.progress != Begin && WeldedShown(t.relay, e))
  {
    hide Answer, ReportStatus, IsoPower, WeldedShown, Closes, Read;
    var p := IsoPower(t, t.isoDoc.progress, e).0;
    DrivenContact(t, e);
    ReportReads(p, e.status);
    ReadMeans(p.relay, t.connected, e.status);
  }

  lemma ReadMeans(r: Relay, taken: bool, pin: bool)
    ensures var q := Read(r, taken, pin);
            q.wired == r.wired && q.cmd == r.cmd && (q.fb <==> if taken then (if r.wired then pin else r.cmd) else r.fb)
  {
  }

  lemma DrivenContact(t: State, e: Env)
    ensures var p := IsoPower(t, t.isoDoc.progress, e).0;
            var started := t.isoDoc.progress == Begin && Closes(t.relay, e);
            && p.connected == t.connected
            && (p.relay.fb <==> started || (t.isoDoc.progress != Begin && WeldedShown(t.relay, e)))
  {
    hide DcOutputOn, EnableOutput, SetTargets, Drive;
    DriveExactly(t.relay, true, e.before, e.after);
    DriveExactly(t.relay, false, e.openBefore, false);
    DriveExactly(Drive(t.relay, true, e.before, e.after).0, false, e.openBefore, false);
  }

  /** After a DIN PowerDelivery the contact is read once more only where PowerDelivery was awaited and a vehicle is
      connected; otherwise it is remembered as the command left it. */
  lemma DinPowerReads(t: State, e: Env)
    requires DinDrives(t) && PowerDelivery in t.dinDoc.used
    ensures var r := OnDin(t, e).relay;
            r.fb <==> if t.phase == ForPowerDelivery && t.connected then (if r.wired then e.status else r.cmd)
                      else if t.dinDoc.ready then Closes(t.relay, e) else WeldedShown(t.relay, e)
  {
    hide AnswerDinPower, AdvanceDin, DinCurrentDemand, DinMetering, Closes, WeldedShown;
    DinPowerContact(t, e);
  }

  lemma DinPowerContact(t: State, e: Env)
    ensures var r := AnswerDinPower(t, e).relay;
            r.fb <==> if t.phase == ForPowerDelivery && t.connected then (if r.wired then e.status else r.cmd)
                      else if t.dinDoc.ready then Closes(t.relay, e) else WeldedShown(t.relay, e)
  {
    hide Answer, ReportStatus, DinPower, WeldedShown, Closes, Read;
    var p := DinPower(t, e).0;
    DinDrivenContact(t, e);
    DinPowerTx(t, e);
    ReportReads(p, e.status);
    ReadMeans(p.relay, t.connected, e.status);
  }

  lemma DinDrivenContact(t: State, e: Env)
    ensures var p := DinPower(t, e).0;
            && p.connected == t.connected
            && (p.relay.fb <==> if t.dinDoc.ready then Closes(t.relay, e) else WeldedShown(t.relay, e))
  {
    hide DcOutputOn, EnableOutput, Drive;
    DriveExactly(t.relay, true, e.before, e.after);
    DriveExactly(t.relay, false, e.openBefore, false);
  }

  /** An ISO CurrentDemand that is acted on sets the charging flag; a DIN one leaves it, unless the charge is
      complete. */
  lemma DemandCharges(t: State, d: Decoded, e: Env)
    requires IsoDemands(t)
    ensures Dialogue(t, d, e).charging && Dialogue(t, d, e).phase == ForCurrentDemand
  {
    hide AnswerIsoPower, IsoMetering, OnDin, Answer, ReportStatus, StartWatchdog, SetTargets;
  }

  /** The pilot check of a connected vehicle changes nothing. Without one it opens the contactor and switches the
      output off with both setpoints at zero, and the session goes on where it was, charging flag included. */
  lemma PilotExactly(t: State, connected: bool, openBefore: bool)
    requires DcCan.Sound(t.dc)
    ensures var r := CpCheck(t, connected, openBefore);
            && (connected ==> r == t.(connected := true))
            && (!connected ==> r == t.(connected := false, relay := r.relay, dc := r.dc)
                               && !r.relay.cmd && !r.dc.enabled)
            && (!connected && !t.relay.cmd ==> r.relay == t.relay)
            && (!connected && !t.dc.enabled ==> r.dc == t.dc)
            && (!connected && t.dc.enabled ==> r.dc.vSet == 0.0 && r.dc.iSet == 0.0)
  {
  }
}
