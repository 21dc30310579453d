/** Where the dialogue departs from what one would expect of it: exactly when, for all states, and a run
    from power-up that gets there. */
module HlcFindings {
  import opened Bytes
  import opened CpControl
  import opened DcCan
  import opened TcpSender
  import opened Hlc
  import opened TcpLink
  import opened HlcSafety
  import V2gtp

  // ---------------------------------------------------------------- switching on without being asked

  predicate Closes(r: Relay, e: Env) {
    Drive(r, true, e.before, e.after).1
  }

  /** The request at hand is an ISO PowerDelivery that asks to start, in a phase that acts on it. */
  predicate StartRequested(t: State) {
    var used := t.isoDoc.used;
    && PowerDelivery in used && t.isoDoc.progress == Begin
    && (|| t.phase == ForPowerDelivery || t.phase == ForCurrentDemand
        || (t.phase == ForSessionStop && MeteringReceipt !in used && SessionStop !in used))
  }

  /** The document left by an earlier DIN decode asks to start, where the phase would act on it. */
  predicate DinStart(t: State) {
    && PowerDelivery in t.dinDoc.used && t.dinDoc.ready
    && ((t.phase == ForPowerDelivery && PreCharge !in t.dinDoc.used) || t.phase == ForCurrentDemand)
  }

  /** The ISO branch has no answer of its own that ends the handling of this frame. */
  predicate Falls(t: State) {
    var used := t.isoDoc.used;
    match t.phase
    case ForAppProtocol => false
    case ForPaymentSelection => PaymentSelection !in used
    case ForAuthorization => PaymentDetails !in used && Authorization !in used
    case ForPowerDelivery => PowerDelivery !in used
    case ForCurrentDemand => PowerDelivery !in used && CurrentDemand !in used
    case ForSessionStop => MeteringReceipt in used || (SessionStop !in used && PowerDelivery !in used)
    case _ => IsoTable(t.phase).value.0 !in used
  }

  /** The ISO branch answers a metering receipt and goes on. */
  predicate MeteringFirst(t: State) {
    MeteringReceipt in t.isoDoc.used && Falls(t) && (t.phase == ForCurrentDemand || t.phase == ForSessionStop)
  }

  function Plus(c: Tally, replies: nat, on: bool): Tally {
    c.(replies := c.replies + replies, ons := c.ons + (if on then 1 else 0))
  }

  lemma AdvanceTally(t: State, m: Msg, next: Phase, e: Env)
    ensures TallyOf(AdvanceDin(t, m, next, e).log) == Plus(TallyOf(t.log), 1, false)
    ensures TallyOf(AdvanceIso(t, m, next, e).log).replies == TallyOf(t.log).replies + 1
    ensures TallyOf(AdvanceIso(t, m, next, e).log).ons == TallyOf(t.log).ons
  {
    hide Answer, ReportStatus, StartWatchdog, TallyOf;
    var r := Answer(if CarriesStatus(m) then ReportStatus(t, e.status) else t, m, true, e.enc, e.now);
    ArmingTally(r.(phase := next), next, e.now);
  }

  lemma ArmingTally(t: State, p: Phase, now: u32)
    ensures TallyOf(StartWatchdog(t, p, now).log).replies == TallyOf(t.log).replies
    ensures TallyOf(StartWatchdog(t, p, now).log).ons == TallyOf(t.log).ons
  {
    hide StartWatchdog, TallyOf;
  }

  lemma DinPowerTally(t: State, e: Env)
    ensures TallyOf(AnswerDinPower(t, e).log) ==
            Plus(TallyOf(t.log), 1, t.dinDoc.ready && Closes(t.relay, e))
  {
    hide Answer, ReportStatus, DcOutputOn, TallyOf, EnableOutput, Drive;
  }

  lemma DinRestTally(t: State, e: Env)
    ensures TallyOf(DinCurrentDemand(t, e).log) == Plus(TallyOf(t.log), 1, false)
    ensures TallyOf(DinMetering(t, e).log) == Plus(TallyOf(t.log), 1, false)
    ensures TallyOf(DinLatePower(t, e).log) == Plus(TallyOf(t.log), 1, false)
  {
    hide DinCurrentDemand, Answer, TallyOf;
    DinDemandTally(t, e);
  }

  lemma DinDemandTally(t: State, e: Env)
    ensures TallyOf(DinCurrentDemand(t, e).log) == Plus(TallyOf(t.log), 1, false)
  {
    hide Answer, ReportStatus, TallyOf, EnableOutput, SetTargets, Drive;
  }

  lemma IsoPowerTally(t: State, e: Env)
    ensures TallyOf(AnswerIsoPower(t, e).log) ==
            Plus(TallyOf(t.log), 1, t.isoDoc.progress == Begin && Closes(t.relay, e))
  {
    hide Answer, ReportStatus, DcOutputOn, StopPower, TallyOf, EnableOutput, SetTargets, Drive;
  }

  lemma IsoStopTally(t: State, e: Env)
    ensures TallyOf(IsoStop(t, e).log) == Plus(TallyOf(t.log), 1, false)
    ensures TallyOf(IsoMetering(t, e).log) == Plus(TallyOf(t.log), 1, false)
    ensures IsoMetering(t, e).phase == t.phase && IsoMetering(t, e).dinDoc == t.dinDoc
  {
    hide Answer, ReportStatus, StopPower, TallyOf;
  }

  lemma PaymentTally(t: State, e: Env)
    ensures var c := TallyOf(IsoPayment(t, e).log);
            c.replies == TallyOf(t.log).replies + 1 && c.ons == TallyOf(t.log).ons
  {
    hide Answer, ResetSession, StartWatchdog, TallyOf;
    var paid := Answer(t, PaymentSelection, true, e.enc, e.now);
    ArmingTally(paid.(expectDetails := t.isoDoc.payment == Contract,
                      detailsDone := t.isoDoc.payment != Contract, phase := ForAuthorization),
                ForAuthorization, e.now);
  }

  lemma AuthorizationTally(t: State, e: Env)
    ensures var c := TallyOf(IsoAuthorization(t, e).log);
            c.replies == TallyOf(t.log).replies + 1 && c.ons == TallyOf(t.log).ons
  {
    hide Answer, AdvanceIso, TallyOf;
    AdvanceTally(t, Authorization, ForChargeParameter, e);
  }

  lemma IsoDemandTally(t: State, e: Env)
    ensures var c := TallyOf(IsoCurrentDemand(t, e).log);
            c.replies == TallyOf(t.log).replies + 1 && c.ons == TallyOf(t.log).ons
  {
    hide Answer, ReportStatus, StartWatchdog, TallyOf, SetTargets;
    var set0 := t.(dc := SetTargets(t.dc, t.isoDoc.v, t.isoDoc.i), charging := true);
    ArmingTally(Answer(ReportStatus(set0, e.status), CurrentDemand, true, e.enc, e.now), ForCurrentDemand, e.now);
  }

  /** What the DIN branch adds to the tally: one answer if it has one, and a switch-on exactly for a
      start document with a confirmed contactor. */
  lemma DinTally(t: State, e: Env)
    ensures TallyOf(OnDin(t, e).log) ==
            Plus(TallyOf(t.log), if DinAnswers(t) then 1 else 0, DinStart(t) && Closes(t.relay, e))
  {
    hide OnDin, TallyOf, Closes;
    match t.phase
    case ForPowerDelivery => PowerDinTally(t, e);
    case ForCurrentDemand => LateDinTally(t, e);
    case ForSessionStop => LateDinTally(t, e);
    case _ => EarlyDinTally(t, e);
  }

  lemma EarlyDinTally(t: State, e: Env)
    requires t.phase != ForPowerDelivery && t.phase != ForCurrentDemand && t.phase != ForSessionStop
    ensures TallyOf(OnDin(t, e).log) == Plus(TallyOf(t.log), if DinAnswers(t) then 1 else 0, false)
  {
    hide OnDin, AdvanceDin, DinAnswers, TallyOf;
    EarlyDinShape(t, e);
    if DinTable(t.phase).Some? {
      AdvanceTally(t, DinTable(t.phase).value.0, DinTable(t.phase).value.1, e);
    } else {
      AdvanceTally(t, PaymentSelection, ForAuthorization, e);
    }
  }

  /** The DIN branch up to PreCharge. */
  lemma EarlyDinShape(t: State, e: Env)
    requires t.phase != ForPowerDelivery && t.phase != ForCurrentDemand && t.phase != ForSessionStop
    ensures OnDin(t, e) ==
            if !DinAnswers(t) then t
            else if t.phase == ForPaymentSelection then AdvanceDin(t, PaymentSelection, ForAuthorization, e)
            else AdvanceDin(t, DinTable(t.phase).value.0, DinTable(t.phase).value.1, e)
    ensures DinAnswers(t) ==> t.phase == ForPaymentSelection || DinTable(t.phase).Some?
    ensures DinTable(t.phase).Some? ==> t.phase != ForPaymentSelection
  {
    hide AdvanceDin;
  }

  lemma PowerDinTally(t: State, e: Env)
    requires t.phase == ForPowerDelivery
    ensures TallyOf(OnDin(t, e).log) ==
            Plus(TallyOf(t.log), if DinAnswers(t) then 1 else 0, DinStart(t) && Closes(t.relay, e))
  {
    hide Answer, AnswerDinPower, AdvanceDin, TallyOf, Closes;
    AdvanceTally(t, PreCharge, ForPowerDelivery, e);
    DinPowerTally(t, e);
  }

  lemma LateDinTally(t: State, e: Env)
    requires t.phase == ForCurrentDemand || t.phase == ForSessionStop
    ensures TallyOf(OnDin(t, e).log) ==
            Plus(TallyOf(t.log), if DinAnswers(t) then 1 else 0, DinStart(t) && Closes(t.relay, e))
  {
    hide Answer, AnswerDinPower, DinCurrentDemand, DinMetering, DinLatePower, TallyOf, Closes;
    DinPowerTally(t, e);
    DinRestTally(t, e);
  }

  /** The DIN branch has an answer to the document at hand. */
  predicate DinAnswers(t: State) {
    var used := t.dinDoc.used;
    match t.phase
    case ForAppProtocol => false
    case ForPaymentSelection => PaymentSelection in used && t.dinDoc.external
    case ForPowerDelivery => PreCharge in used || PowerDelivery in used
    case ForCurrentDemand => PowerDelivery in used || CurrentDemand in used || MeteringReceipt in used
    case ForSessionStop => MeteringReceipt in used || SessionStop in used || PowerDelivery in used
    case _ => DinTable(t.phase).value.0 in used
  }

  /** The relay the DIN branch finds: a metering answer has re-read the contact first. */
  function FallRelay(t: State, e: Env): Relay {
    if t.phase == ForCurrentDemand && MeteringReceipt in t.isoDoc.used then IsoMetering(t, e).relay else t.relay
  }

  /** One frame adds to the tally of an ISO session what the branches at hand say. */
  predicate PartsAdd(t: State, e: Env) {
    var c, r := TallyOf(t.log), TallyOf(OnIso(t, e).log);
    && r.replies == c.replies + (if MeteringFirst(t) then 1 else 0)
                    + (if Falls(t) then (if DinAnswers(t) then 1 else 0) else 1)
    && (r.ons > c.ons <==>
          || (StartRequested(t) && Closes(t.relay, e))
          || (Falls(t) && DinStart(t) && Closes(FallRelay(t, e), e)))
  }

  /** The ISO branch of a phase with one expected request. */
  lemma TableShape(t: State, e: Env)
    requires IsoTable(t.phase).Some?
    ensures var (m, next) := IsoTable(t.phase).value;
            && OnIso(t, e) == (if m in t.isoDoc.used then AdvanceIso(t, m, next, e) else OnDin(t, e))
            && (Falls(t) <==> m !in t.isoDoc.used)
    ensures !MeteringFirst(t) && !StartRequested(t) && FallRelay(t, e) == t.relay
  {
    hide AdvanceIso, OnDin;
  }

  lemma TableParts(t: State, e: Env)
    requires IsoTable(t.phase).Some?
    ensures PartsAdd(t, e)
  {
    var (m, next) := IsoTable(t.phase).value;
    hide OnIso, AdvanceIso, OnDin, TallyOf, Closes, Falls, MeteringFirst, StartRequested, FallRelay, DinStart,
         DinAnswers;
    TableShape(t, e);
    if m in t.isoDoc.used {
      AdvanceTally(t, m, next, e);
    } else {
      DinTally(t, e);
    }
  }

  lemma EarlyParts(t: State, e: Env)
    requires t.phase == ForPaymentSelection || t.phase == ForAuthorization
    ensures PartsAdd(t, e)
  {
    hide Answer, IsoPayment, IsoAuthorization, OnDin, TallyOf, Closes;
    if Falls(t) {
      assert OnIso(t, e) == OnDin(t, e);
      hide OnIso;
      DinTally(t, e);
    } else if t.phase == ForPaymentSelection {
      PaymentTally(t, e);
    } else {
      AuthorizationTally(t, e);
    }
  }

  lemma PowerParts(t: State, e: Env)
    requires t.phase == ForPowerDelivery
    ensures PartsAdd(t, e)
  {
    hide Answer, AnswerIsoPower, OnDin, StartWatchdog, TallyOf, Closes;
    DinTally(t, e);
    IsoPowerTally(t, e);
    ArmingTally(AnswerIsoPower(t, e), AnswerIsoPower(t, e).phase, e.now);
  }

  /** A metering receipt is answered, then handed on. */
  lemma MeteringParts(t: State, e: Env)
    requires MeteringFirst(t)
    ensures PartsAdd(t, e)
  {
    hide Answer, IsoMetering, OnDin, TallyOf, Closes;
    DinTally(IsoMetering(t, e), SecondReadings(e));
    IsoStopTally(t, e);
    SameContact(IsoMetering(t, e).relay, e);
  }

  /** The ISO branch of current demand, a metering receipt apart. */
  lemma DemandShape(t: State, e: Env)
    requires t.phase == ForCurrentDemand && !MeteringFirst(t)
    ensures OnIso(t, e) == (if PowerDelivery in t.isoDoc.used then AnswerIsoPower(t, e)
                            else if CurrentDemand in t.isoDoc.used then IsoCurrentDemand(t, e)
                            else OnDin(t, e))
    ensures Falls(t) <==> PowerDelivery !in t.isoDoc.used && CurrentDemand !in t.isoDoc.used
    ensures Falls(t) ==> MeteringReceipt !in t.isoDoc.used
    ensures StartRequested(t) <==> PowerDelivery in t.isoDoc.used && t.isoDoc.progress == Begin
  {
    hide AnswerIsoPower, IsoCurrentDemand, IsoMetering, OnDin;
  }

  lemma DemandParts(t: State, e: Env)
    requires t.phase == ForCurrentDemand && !MeteringFirst(t)
    ensures PartsAdd(t, e)
  {
    hide OnIso, AnswerIsoPower, IsoCurrentDemand, OnDin, TallyOf, Closes, FallRelay, DinStart, DinAnswers, Falls,
         MeteringFirst, StartRequested;
    DemandShape(t, e);
    if PowerDelivery in t.isoDoc.used {
      IsoPowerTally(t, e);
    } else if CurrentDemand in t.isoDoc.used {
      IsoDemandTally(t, e);
    } else {
      DinTally(t, e);
      UnreadRelay(t, e);
    }
  }

  lemma UnreadRelay(t: State, e: Env)
    requires MeteringReceipt !in t.isoDoc.used
    ensures FallRelay(t, e) == t.relay
  {
  }

  lemma StopParts(t: State, e: Env)
    requires t.phase == ForSessionStop && !MeteringFirst(t)
    ensures PartsAdd(t, e)
  {
    hide Answer, AnswerIsoPower, IsoStop, IsoMetering, OnDin, TallyOf, Closes;
    DinTally(t, e);
    IsoPowerTally(t, e);
    IsoStopTally(t, e);
  }

  lemma IsoParts(t: State, e: Env)
    requires t.phase != ForAppProtocol
    ensures PartsAdd(t, e)
  {
    hide PartsAdd, MeteringFirst;
    if MeteringFirst(t) {
      MeteringParts(t, e);
    } else {
      match t.phase
      case ForPowerDelivery => PowerParts(t, e);
      case ForCurrentDemand => DemandParts(t, e);
      case ForSessionStop => StopParts(t, e);
      case ForPaymentSelection => EarlyParts(t, e);
      case ForAuthorization => EarlyParts(t, e);
      case _ => TableParts(t, e);
    }
  }

  lemma MeteringShape(t: State, e: Env)
    requires MeteringFirst(t)
    ensures OnIso(t, e) == OnDin(IsoMetering(t, e), SecondReadings(e))
  {
    hide IsoMetering, OnDin;
  }

  lemma FallsPlain(t: State, e: Env)
    requires Falls(t) && !MeteringFirst(t)
    ensures OnIso(t, e) == OnDin(t, e)
  {
    hide OnDin;
  }

  lemma SameContact(r: Relay, e: Env)
    ensures Closes(r, SecondReadings(e)) <==> Closes(r, e)
  {
  }

  /** In an ISO session a frame switches the output on exactly when it is a PowerDelivery that asks to
      start, or when the ISO branch has no final answer to it and the DIN document left over from an
      earlier decode asks to start; in both cases only with a confirmed contactor. */
  lemma IsoSwitchesOnExactly(t: State, e: Env)
    requires t.phase != ForAppProtocol
    ensures TallyOf(OnIso(t, e).log).ons > TallyOf(t.log).ons <==>
              || (StartRequested(t) && Closes(t.relay, e))
              || (Falls(t) && DinStart(t) && Closes(FallRelay(t, e), e))
  {
    hide OnIso, TallyOf;
    IsoParts(t, e);
  }

  /** Past the handshake a frame is answered at most twice: twice exactly when an ISO metering receipt
      meets a left-over DIN document that the phase would answer as well, and not at all exactly when
      neither branch has an answer. */
  lemma AnsweredTwiceExactly(t: State, e: Env)
    requires t.phase != ForAppProtocol
    ensures TallyOf(OnIso(t, e).log).replies <= TallyOf(t.log).replies + 2
    ensures TallyOf(OnIso(t, e).log).replies == TallyOf(t.log).replies + 2 <==>
              MeteringFirst(t) && DinAnswers(t)
    ensures TallyOf(OnIso(t, e).log).replies == TallyOf(t.log).replies <==>
              Falls(t) && !MeteringFirst(t) && !DinAnswers(t)
  {
    hide OnIso, TallyOf;
    IsoParts(t, e);
  }

  // ---------------------------------------------------------------- the contactor after a session

  lemma DinPowerMoves(t: State, e: Env)
    ensures var (p, ok) := DinPower(t, e);
            && (p.relay.cmd <==> t.dinDoc.ready)
            && (t.dinDoc.ready ==> (ok <==> Closes(t.relay, e)))
            && (!(t.dinDoc.ready && ok) ==> !p.dc.enabled && !p.charging)
            && p.dinDoc == t.dinDoc
  {
    hide DcOutputOn, EnableOutput;
  }

  /** After a DIN PowerDelivery the contactor is commanded closed exactly when the vehicle was ready:
      an unconfirmed close is answered negatively, ends charging, and leaves the coil energised. */
  lemma DinPowerContactor(t: State, e: Env)
    ensures var r := AnswerDinPower(t, e);
            && (r.relay.cmd <==> t.dinDoc.ready)
            && (r.phase == ForCurrentDemand <==> t.dinDoc.ready && Closes(t.relay, e))
            && (r.phase != ForCurrentDemand ==> !r.dc.enabled && !r.charging && r.phase == ForSessionStop)
  {
    hide Answer, ReportStatus, DinPower, Closes;
    DinPowerMoves(t, e);
  }

  /** Which phase each way of handling a power request or a metering receipt leads to. */
  lemma StaysInSession(t: State, e: Env)
    ensures AnswerIsoPower(t, e).phase != ForAppProtocol
    ensures DinMetering(t, e).phase == t.phase
    ensures DinLatePower(t, e).phase == t.phase || DinLatePower(t, e).phase == ForCurrentDemand
  {
    hide Answer, ReportStatus, DcOutputOn, StopPower, Drive;
  }

  lemma DinStopShape(t: State, e: Env)
    requires t.phase == ForSessionStop
    ensures OnDin(t, e) ==
            if MeteringReceipt in t.dinDoc.used then DinMetering(t, e)
            else if SessionStop in t.dinDoc.used then
              Answer(t, SessionStop, true, e.enc, e.now).(charging := false, phase := ForAppProtocol)
            else if PowerDelivery in t.dinDoc.used then DinLatePower(t, e)
            else t
  {
    hide Answer, DinMetering, DinLatePower;
  }

  lemma DinEnds(t: State, e: Env)
    requires t.phase == ForSessionStop && OnDin(t, e).phase == ForAppProtocol
    ensures OnDin(t, e).relay == t.relay
  {
    hide OnDin, Answer, DinMetering, DinLatePower, AnswerIsoPower;
    StaysInSession(t, e);
    DinStopShape(t, e);
  }

  lemma IsoStopReleases(t: State, e: Env)
    ensures !IsoStop(t, e).relay.cmd
  {
    hide Answer, StopPower;
  }

  lemma MeteringKeepsCoil(t: State, e: Env)
    ensures IsoMetering(t, e).relay.cmd == t.relay.cmd && IsoMetering(t, e).phase == t.phase
  {
    hide Answer, ReportStatus;
  }

  /** A session that ends with a frame, from the phase that waits for its end, leaves the contactor commanded
      closed exactly when it was and the frame is not an ISO SessionStop that the ISO branch answers: a DIN
      SessionStop never opens it, be it fresh or left over and ending an ISO session. */
  lemma StopLeavesCoilExactly(t: State, d: Decoded, e: Env)
    requires t.phase == ForSessionStop && Dialogue(t, d, e).phase == ForAppProtocol
    ensures Dialogue(t, d, e).relay.cmd <==>
              t.relay.cmd &&
              !(t.protocol == Iso2 && SessionStop in t.isoDoc.used && MeteringReceipt !in t.isoDoc.used)
  {
    hide OnDin, IsoMetering, IsoStop, AnswerIsoPower;
    if t.protocol == Din {
      DinEnds(t, e);
    } else if MeteringReceipt in t.isoDoc.used {
      MeteringKeepsCoil(t, e);
      DinEnds(IsoMetering(t, e), SecondReadings(e));
    } else if SessionStop in t.isoDoc.used {
      IsoStopReleases(t, e);
    } else if PowerDelivery in t.isoDoc.used {
      StaysInSession(t, e);
    } else {
      DinEnds(t, e);
    }
  }
}
