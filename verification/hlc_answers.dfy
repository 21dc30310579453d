/** What each frame hands to the sender, in every state past the handshake. */
module HlcAnswers {
  import opened Bytes
  import opened CpControl
  import opened DcCan
  import opened TcpSender
  import opened Hlc
  import opened HlcFindings

  /** An encoded answer is sent, one that could not be encoded is not. */
  function SentBy(x: Sender, enc: Option<Data>, now: u32): Sender {
    if enc.Some? then SendFrame(x, enc.value, now) else x
  }

  /** The first answer of a frame, where it has one. */
  function FirstEnc(answers: bool, e: Env): Option<Data> {
    if answers then e.enc else None
  }

  lemma AnswerTx(t: State, m: Msg, positive: bool, enc: Option<Data>, now: u32)
    ensures Answer(t, m, positive, enc, now).tx == SentBy(t.tx, enc, now)
  {
    hide SendFrame, OrderOk, Progress, TallyOf;
  }

  lemma AdvanceTx(t: State, m: Msg, next: Phase, e: Env)
    ensures AdvanceIso(t, m, next, e).tx == SentBy(t.tx, e.enc, e.now)
    ensures AdvanceDin(t, m, next, e).tx == SentBy(t.tx, e.enc, e.now)
  {
    hide Answer, ReportStatus, StartWatchdog, SentBy;
    AnswerTx(if CarriesStatus(m) then ReportStatus(t, e.status) else t, m, true, e.enc, e.now);
  }

  lemma WatchTx(t: State, p: Phase, now: u32)
    ensures StartWatchdog(t, p, now).tx == t.tx
  {
    hide StartWatchdog;
  }

  lemma IsoPowerTx(t: State, e: Env)
    ensures IsoPower(t, t.isoDoc.progress, e).0.tx == t.tx
  {
    hide DcOutputOn, StopPower, Drive;
  }

  lemma DinPowerTx(t: State, e: Env)
    ensures DinPower(t, e).0.tx == t.tx && DinPower(t, e).0.phase == t.phase
  {
    hide DcOutputOn, EnableOutput, Drive;
  }

  lemma PowerTx(t: State, e: Env)
    ensures AnswerIsoPower(t, e).tx == SentBy(t.tx, e.enc, e.now)
    ensures AnswerDinPower(t, e).tx == SentBy(t.tx, e.enc, e.now)
  {
    hide Answer, ReportStatus, IsoPower, DinPower, SentBy;
    IsoPowerTx(t, e);
    DinPowerTx(t, e);
    var (p, ok, next) := IsoPower(t, t.isoDoc.progress, e);
    AnswerTx(ReportStatus(p, e.status), PowerDelivery, ok, e.enc, e.now);
    var (q, done) := DinPower(t, e);
    AnswerTx(if t.phase == ForPowerDelivery then ReportStatus(q, e.status) else q, PowerDelivery, done, e.enc, e.now);
  }

  lemma DemandTx(t: State, e: Env)
    ensures IsoCurrentDemand(t, e).tx == SentBy(t.tx, e.enc, e.now)
  {
    hide Answer, ReportStatus, StartWatchdog, SetTargets, SentBy;
    var set0 := t.(dc := SetTargets(t.dc, t.isoDoc.v, t.isoDoc.i), charging := true);
    AnswerTx(ReportStatus(set0, e.status), CurrentDemand, true, e.enc, e.now);
  }

  lemma DinDemandTx(t: State, e: Env)
    ensures DinCurrentDemand(t, e).tx == SentBy(t.tx, e.enc, e.now)
  {
    hide Answer, ReportStatus, EnableOutput, Drive, SetTargets, SentBy;
    var set0 := t.(dc := SetTargets(t.dc, t.dinDoc.v, t.dinDoc.i));
    var acted := if t.dinDoc.complete then DinPowerOff(set0, e) else set0;
    AnswerTx(ReportStatus(acted, e.status), CurrentDemand, true, e.enc, e.now);
  }

  lemma MeteringTx(t: State, e: Env)
    ensures var r := IsoMetering(t, e);
            && r.tx == SentBy(t.tx, e.enc, e.now) && r.phase == t.phase && r.dinDoc == t.dinDoc
    ensures DinMetering(t, e).tx == SentBy(t.tx, e.enc, e.now)
  {
    hide Answer, ReportStatus, SentBy;
    AnswerTx(ReportStatus(t, e.status), MeteringReceipt, true, e.enc, e.now);
    AnswerTx(t.(relay := Feedback(t.relay, e.status)), MeteringReceipt, true, e.enc, e.now);
  }

  lemma EndTx(t: State, e: Env)
    ensures DinLatePower(t, e).tx == SentBy(t.tx, e.enc, e.now)
    ensures IsoStop(t, e).tx == SentBy(t.tx, e.enc, e.now)
  {
    hide Answer, StopPower, SentBy;
    AnswerTx(t, PowerDelivery, true, e.enc, e.now);
    AnswerTx(t, SessionStop, true, e.enc, e.now);
  }

  lemma AuthorizationTx(t: State, e: Env)
    ensures IsoAuthorization(t, e).tx == SentBy(t.tx, e.enc, e.now)
    ensures Answer(t, PaymentDetails, true, e.enc, e.now).tx == SentBy(t.tx, e.enc, e.now)
  {
    hide Answer, AdvanceIso, SentBy;
    AnswerTx(t, Authorization, false, e.enc, e.now);
    AnswerTx(t, PaymentDetails, true, e.enc, e.now);
    AdvanceTx(t, Authorization, ForChargeParameter, e);
  }

  /** A payment option that is not supported is refused, and with the session the pending answer is forgotten. */
  predicate Refuses(t: State) {
    t.phase == ForPaymentSelection && PaymentSelection in t.isoDoc.used && t.isoDoc.payment == OtherPayment
  }

  lemma PaymentTx(t: State, e: Env)
    requires t.isoDoc.payment != OtherPayment
    ensures IsoPayment(t, e).tx == SentBy(t.tx, e.enc, e.now)
  {
    hide Answer, ResetSession, StartWatchdog, SentBy;
    AnswerTx(t, PaymentSelection, true, e.enc, e.now);
  }

  // ---------------------------------------------------------------- the DIN branch

  lemma EarlyDinTx(t: State, e: Env)
    requires t.phase != ForPowerDelivery && t.phase != ForCurrentDemand && t.phase != ForSessionStop
    ensures OnDin(t, e).tx == SentBy(t.tx, FirstEnc(DinAnswers(t), e), e.now)
  {
    hide AdvanceDin, SendFrame;
    if DinTable(t.phase).Some? {
      var (m, next) := DinTable(t.phase).value;
      assert OnDin(t, e) == if m in t.dinDoc.used then AdvanceDin(t, m, next, e) else t;
      hide OnDin;
      AdvanceTx(t, m, next, e);
    } else if t.phase == ForPaymentSelection {
      AdvanceTx(t, PaymentSelection, ForAuthorization, e);
    }
  }

  lemma PowerDinTx(t: State, e: Env)
    requires t.phase == ForPowerDelivery
    ensures OnDin(t, e).tx == SentBy(t.tx, FirstEnc(DinAnswers(t), e), e.now)
  {
    hide AdvanceDin, AnswerDinPower, SendFrame;
    if PreCharge in t.dinDoc.used {
      AdvanceTx(t, PreCharge, ForPowerDelivery, e);
    } else if PowerDelivery in t.dinDoc.used {
      PowerTx(t, e);
    }
  }

  lemma DemandDinTx(t: State, e: Env)
    requires t.phase == ForCurrentDemand
    ensures OnDin(t, e).tx == SentBy(t.tx, FirstEnc(DinAnswers(t), e), e.now)
  {
    hide AnswerDinPower, DinCurrentDemand, DinMetering, SendFrame;
    if PowerDelivery in t.dinDoc.used {
      PowerTx(t, e);
    } else if CurrentDemand in t.dinDoc.used {
      DinDemandTx(t, e);
    } else if MeteringReceipt in t.dinDoc.used {
      MeteringTx(t, e);
    }
  }

  lemma StopDinTx(t: State, e: Env)
    requires t.phase == ForSessionStop
    ensures OnDin(t, e).tx == SentBy(t.tx, FirstEnc(DinAnswers(t), e), e.now)
  {
    hide OnDin, Answer, DinMetering, DinLatePower, SendFrame;
    DinStopShape(t, e);
    if MeteringReceipt in t.dinDoc.used {
      MeteringTx(t, e);
    } else if SessionStop in t.dinDoc.used {
      AnswerTx(t, SessionStop, true, e.enc, e.now);
    } else if PowerDelivery in t.dinDoc.used {
      EndTx(t, e);
    }
  }

  lemma DinTx(t: State, e: Env)
    ensures OnDin(t, e).tx == SentBy(t.tx, FirstEnc(DinAnswers(t), e), e.now)
  {
    hide OnDin, SentBy, FirstEnc, DinAnswers;
    match t.phase
    case ForPowerDelivery => PowerDinTx(t, e);
    case ForCurrentDemand => DemandDinTx(t, e);
    case ForSessionStop => StopDinTx(t, e);
    case _ => EarlyDinTx(t, e);
  }

  // ---------------------------------------------------------------- the ISO branch

  /** Where the ISO branch has an answer of its own that ends the handling. */
  lemma OwnTx(t: State, e: Env)
    requires !Falls(t) && t.phase != ForAppProtocol && !Refuses(t)
    ensures OnIso(t, e).tx == SentBy(t.tx, e.enc, e.now)
  {
    hide SentBy;
    if IsoTable(t.phase).Some? {
      hide OnIso, AdvanceIso, Falls;
      TableShape(t, e);
      AdvanceTx(t, IsoTable(t.phase).value.0, IsoTable(t.phase).value.1, e);
    } else if t.phase == ForPaymentSelection || t.phase == ForAuthorization {
      EarlyOwnTx(t, e);
    } else {
      LateOwnTx(t, e);
    }
  }

  lemma EarlyOwnTx(t: State, e: Env)
    requires !Falls(t) && !Refuses(t) && (t.phase == ForPaymentSelection || t.phase == ForAuthorization)
    ensures OnIso(t, e).tx == SentBy(t.tx, e.enc, e.now)
  {
    hide Answer, IsoPayment, IsoAuthorization, OnDin, SentBy;
    if t.phase == ForPaymentSelection {
      PaymentTx(t, e);
    } else {
      AuthorizationTx(t, e);
    }
  }

  /** The ISO branch of the late phases, spelled out. */
  lemma LateShape(t: State, e: Env)
    requires !Falls(t) && (t.phase == ForPowerDelivery || t.phase == ForCurrentDemand || t.phase == ForSessionStop)
    ensures OnIso(t, e) ==
            match t.phase
            case ForPowerDelivery => StartWatchdog(AnswerIsoPower(t, e), AnswerIsoPower(t, e).phase, e.now)
            case ForCurrentDemand =>
              if PowerDelivery in t.isoDoc.used then AnswerIsoPower(t, e) else IsoCurrentDemand(t, e)
            case _ => if SessionStop in t.isoDoc.used then IsoStop(t, e) else AnswerIsoPower(t, e)
  {
    hide AnswerIsoPower, IsoCurrentDemand, IsoMetering, IsoStop, OnDin, StartWatchdog;
  }

  lemma LateOwnTx(t: State, e: Env)
    requires !Falls(t) && (t.phase == ForPowerDelivery || t.phase == ForCurrentDemand || t.phase == ForSessionStop)
    ensures OnIso(t, e).tx == SentBy(t.tx, e.enc, e.now)
  {
    hide OnIso, Falls, AnswerIsoPower, IsoCurrentDemand, IsoStop, StartWatchdog, SentBy;
    LateShape(t, e);
    PowerTx(t, e);
    match t.phase
    case ForPowerDelivery => WatchTx(AnswerIsoPower(t, e), AnswerIsoPower(t, e).phase, e.now);
    case ForCurrentDemand => DemandTx(t, e);
    case ForSessionStop => EndTx(t, e);
  }

  /** A metering receipt the DIN branch does not answer too. */
  lemma MeteringOnceTx(t: State, e: Env)
    requires MeteringFirst(t) && !DinAnswers(t)
    ensures OnIso(t, e).tx == SentBy(t.tx, e.enc, e.now)
  {
    hide IsoMetering, OnDin, SentBy;
    var r := IsoMetering(t, e);
    MeteringTx(t, e);
    DinTx(r, SecondReadings(e));
    assert !DinAnswers(r);
    NothingSent(r.tx, SecondReadings(e));
  }

  lemma NothingSent(x: Sender, e: Env)
    ensures SentBy(x, FirstEnc(false, e), e.now) == x
  {
  }

  // ---------------------------------------------------------------- any frame

  predicate AnsweredTwice(t: State) {
    t.protocol == Iso2 && MeteringFirst(t) && DinAnswers(t)
  }

  /** The frame has an answer. */
  predicate Answers(t: State) {
    if t.protocol == Din then DinAnswers(t) else MeteringFirst(t) || !Falls(t) || DinAnswers(t)
  }

  /** Past the handshake, a frame that is not answered twice and not the refusal of a payment option hands the
      sender exactly its one answer, if it has one. */
  lemma AnsweredOnce(t: State, d: Decoded, e: Env)
    requires t.phase != ForAppProtocol && !AnsweredTwice(t) && !(t.protocol == Iso2 && Refuses(t))
    ensures Dialogue(t, d, e).tx == SentBy(t.tx, FirstEnc(Answers(t), e), e.now)
  {
    hide OnIso, OnDin, DinAnswers, Falls, MeteringFirst, SentBy;
    if t.protocol == Din {
      DinTx(t, e);
    } else if MeteringFirst(t) {
      MeteringOnceTx(t, e);
    } else if Falls(t) {
      FallsPlain(t, e);
      DinTx(t, e);
    } else {
      OwnTx(t, e);
    }
  }
}
