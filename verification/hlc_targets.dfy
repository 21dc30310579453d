/** What each frame does to the setpoint targets of the DC output, in every state. */
module HlcTargets {
  import opened Bytes
  import opened CpControl
  import opened DcCan
  import opened Hlc
  import opened HlcFindings

  function AtLeastZero(x: real): real {
    if x < 0.0 then 0.0 else x
  }

  predicate Targets(d: Dc, v: real, i: real) {
    d.vTarget == AtLeastZero(v) && d.iTarget == AtLeastZero(i)
  }

  /** Targets as before, or an output switched off with both at zero. */
  predicate Kept(d: Dc, r: Dc) {
    || (r.vTarget == d.vTarget && r.iTarget == d.iTarget)
    || (!r.enabled && r.vTarget == 0.0 && r.iTarget == 0.0)
  }

  /** The frame is an ISO CurrentDemand that is acted on. */
  predicate IsoDemands(t: State) {
    && t.protocol == Iso2 && t.phase == ForCurrentDemand
    && PowerDelivery !in t.isoDoc.used && CurrentDemand in t.isoDoc.used
  }

  /** The DIN document at hand is a CurrentDemand the DIN branch would act on. */
  predicate DinDemand(t: State) {
    t.phase == ForCurrentDemand && PowerDelivery !in t.dinDoc.used && CurrentDemand in t.dinDoc.used
  }

  /** A demand sets its values, negative ones cut to zero, and does not switch the output; a finished charge
      switches it off; everything else keeps the targets. */
  predicate Follows(t: State, r: Dc, iso: bool, din: bool) {
    && (iso ==> Targets(r, t.isoDoc.v, t.isoDoc.i) && r.enabled == t.dc.enabled)
    && (din && !t.dinDoc.complete ==> Targets(r, t.dinDoc.v, t.dinDoc.i) && r.enabled == t.dc.enabled)
    && (din && t.dinDoc.complete ==> !r.enabled)
    && (!iso && !din ==> Kept(t.dc, r))
  }

  // ---------------------------------------------------------------- single answers

  lemma AdvanceDc(t: State, m: Msg, next: Phase, e: Env)
    ensures AdvanceIso(t, m, next, e).dc == t.dc
    ensures AdvanceDin(t, m, next, e).dc == t.dc
  {
    hide Answer, ReportStatus, StartWatchdog;
  }

  lemma WatchDc(t: State, p: Phase, now: u32)
    ensures StartWatchdog(t, p, now).dc == t.dc
  {
    hide StartWatchdog;
  }

  lemma AuthorizationDc(t: State, e: Env)
    ensures IsoAuthorization(t, e).dc == t.dc
  {
    hide Answer, AdvanceIso;
    AdvanceDc(t, Authorization, ForChargeParameter, e);
  }

  lemma MeteringDc(t: State, e: Env)
    ensures var r := IsoMetering(t, e); r.dc == t.dc && r.phase == t.phase && r.dinDoc == t.dinDoc && r.isoDoc == t.isoDoc
    ensures DinMetering(t, e).dc == t.dc && DinLatePower(t, e).dc == t.dc
  {
    hide Answer, ReportStatus;
  }

  lemma EnableKeeps(d: Dc, on: bool)
    ensures Kept(d, EnableOutput(d, on)) && Kept(d, EnableOutput(SetTargets(d, 0.0, 0.0), false))
  {
  }

  lemma StopKeeps(t: State, openBefore: bool)
    ensures Kept(t.dc, StopPower(t, openBefore).dc) && Kept(t.dc, ResetSession(t, openBefore).dc)
  {
    hide EnableOutput, SetTargets, Drive, Kept;
    EnableKeeps(t.dc, false);
  }

  lemma IsoPowerKeeps(t: State, e: Env)
    ensures Kept(t.dc, IsoPower(t, t.isoDoc.progress, e).0.dc)
  {
    hide StopPower, EnableOutput, Drive, Kept;
    EnableKeeps(t.dc, true);
    StopKeeps(t, e.openBefore);
    StopKeeps(t.(relay := Drive(t.relay, true, e.before, e.after).0), e.openBefore);
  }

  lemma DinPowerKeeps(t: State, e: Env)
    ensures Kept(t.dc, DinPower(t, e).0.dc)
  {
    hide EnableOutput, Drive, Kept;
    EnableKeeps(t.dc, true);
    EnableKeeps(t.dc, false);
  }

  lemma PowerAnswersKeep(t: State, e: Env)
    ensures Kept(t.dc, AnswerIsoPower(t, e).dc)
    ensures Kept(t.dc, AnswerDinPower(t, e).dc)
  {
    hide Answer, ReportStatus, IsoPower, DinPower, Kept;
    IsoPowerKeeps(t, e);
    DinPowerKeeps(t, e);
  }

  lemma IsoEndsKeep(t: State, e: Env)
    ensures Kept(t.dc, IsoStop(t, e).dc)
    ensures Kept(t.dc, IsoPayment(t, e).dc)
  {
    hide Answer, StopPower, IsoPayment, Kept;
    StopKeeps(Answer(t, SessionStop, true, e.enc, e.now), e.openBefore);
    PaymentKeeps(t, e);
  }

  lemma PaymentKeeps(t: State, e: Env)
    ensures Kept(t.dc, IsoPayment(t, e).dc)
  {
    hide Answer, ResetSession, StartWatchdog, Kept;
    if t.isoDoc.payment == OtherPayment {
      StopKeeps(Answer(t, PaymentSelection, false, e.enc, e.now), e.openBefore);
    } else {
      NothingKept(t.dc);
    }
  }

  lemma NothingKept(d: Dc)
    ensures Kept(d, d)
  {
  }

  lemma IsoDemandSets(t: State, e: Env)
    ensures Follows(t, IsoCurrentDemand(t, e).dc, true, false)
  {
    hide Answer, ReportStatus, StartWatchdog;
  }

  lemma OffAfter(d: Dc, v: real, i: real)
    ensures !EnableOutput(SetTargets(d, v, i), false).enabled
    ensures SetTargets(d, v, i).enabled == d.enabled && Targets(SetTargets(d, v, i), v, i)
  {
  }

  lemma DinDemandSets(t: State, e: Env)
    ensures Follows(t, DinCurrentDemand(t, e).dc, false, true)
  {
    hide Answer, ReportStatus, EnableOutput, SetTargets, Drive, Targets;
    OffAfter(t.dc, t.dinDoc.v, t.dinDoc.i);
  }

  lemma KeptFollows(t: State, r: Dc)
    requires Kept(t.dc, r)
    ensures Follows(t, r, false, false)
  {
  }

  // ---------------------------------------------------------------- frames

  lemma EarlyDin(t: State, e: Env)
    requires t.phase != ForPowerDelivery && t.phase != ForCurrentDemand && t.phase != ForSessionStop
    ensures OnDin(t, e).dc == t.dc
  {
    hide AdvanceDin;
    if DinTable(t.phase).Some? {
      var (m, next) := DinTable(t.phase).value;
      assert OnDin(t, e) == if m in t.dinDoc.used then AdvanceDin(t, m, next, e) else t;
      hide OnDin;
      AdvanceDc(t, m, next, e);
    } else if t.phase == ForPaymentSelection {
      AdvanceDc(t, PaymentSelection, ForAuthorization, e);
    }
  }

  lemma PowerDin(t: State, e: Env)
    requires t.phase == ForPowerDelivery
    ensures Kept(t.dc, OnDin(t, e).dc)
  {
    hide AdvanceDin, AnswerDinPower, Kept;
    NothingKept(t.dc);
    if PreCharge in t.dinDoc.used {
      AdvanceDc(t, PreCharge, ForPowerDelivery, e);
    } else if PowerDelivery in t.dinDoc.used {
      PowerAnswersKeep(t, e);
    }
  }

  lemma DemandDin(t: State, e: Env)
    requires t.phase == ForCurrentDemand && !DinDemand(t)
    ensures Kept(t.dc, OnDin(t, e).dc)
  {
    hide AnswerDinPower, DinMetering, Kept;
    NothingKept(t.dc);
    PowerAnswersKeep(t, e);
    MeteringDc(t, e);
  }

  lemma StopDin(t: State, e: Env)
    requires t.phase == ForSessionStop
    ensures OnDin(t, e).dc == t.dc
  {
    hide Answer, DinMetering, DinLatePower;
    MeteringDc(t, e);
  }

  lemma DemandedDin(t: State, e: Env)
    requires DinDemand(t)
    ensures Follows(t, OnDin(t, e).dc, false, true)
  {
    hide DinCurrentDemand, Follows;
    DinDemandSets(t, e);
  }

  lemma DinTargets(t: State, e: Env)
    ensures Follows(t, OnDin(t, e).dc, false, DinDemand(t))
  {
    hide OnDin, Follows, Kept;
    if DinDemand(t) {
      DemandedDin(t, e);
    } else {
      NothingKept(t.dc);
      match t.phase {
        case ForPowerDelivery => PowerDin(t, e);
        case ForCurrentDemand => DemandDin(t, e);
        case ForSessionStop => StopDin(t, e);
        case _ => EarlyDin(t, e);
      }
      KeptFollows(t, OnDin(t, e).dc);
    }
  }

  /** A metering answer in front changes nothing about the targets. */
  lemma MeteringFollows(t: State, e: Env)
    requires MeteringFirst(t)
    ensures Follows(t, OnIso(t, e).dc, false, DinDemand(t))
  {
    hide IsoMetering, OnDin, Follows;
    MeteringDc(t, e);
    DinTargets(IsoMetering(t, e), SecondReadings(e));
    SameFollows(IsoMetering(t, e), t, OnDin(IsoMetering(t, e), SecondReadings(e)).dc, DinDemand(t));
  }

  lemma SameFollows(s: State, t: State, r: Dc, din: bool)
    requires Follows(s, r, false, din) && s.dc == t.dc && s.dinDoc == t.dinDoc
    ensures Follows(t, r, false, din)
  {
  }

  lemma IsoAnswers(t: State, e: Env)
    requires !Falls(t) && t.phase != ForAppProtocol && !IsoDemands(t) && t.protocol == Iso2
    ensures Kept(t.dc, OnIso(t, e).dc)
  {
    hide Answer, AnswerIsoPower, AdvanceIso, IsoPayment, IsoStop, IsoAuthorization, OnDin, StartWatchdog, Kept;
    NothingKept(t.dc);
    PowerAnswersKeep(t, e);
    IsoEndsKeep(t, e);
    AuthorizationDc(t, e);
    WatchDc(AnswerIsoPower(t, e), AnswerIsoPower(t, e).phase, e.now);
    if IsoTable(t.phase).Some? {
      AdvanceDc(t, IsoTable(t.phase).value.0, IsoTable(t.phase).value.1, e);
    }
  }

  lemma IsoTargets(t: State, e: Env)
    requires t.protocol == Iso2 && t.phase != ForAppProtocol
    ensures Follows(t, OnIso(t, e).dc, IsoDemands(t), Falls(t) && DinDemand(t))
  {
    hide OnDin, Follows, Kept, IsoCurrentDemand;
    if MeteringFirst(t) {
      hide OnIso;
      MeteringFollows(t, e);
    } else if Falls(t) {
      hide OnIso;
      FallsPlain(t, e);
      DinTargets(t, e);
    } else if IsoDemands(t) {
      IsoDemandSets(t, e);
    } else {
      hide OnIso;
      IsoAnswers(t, e);
      KeptFollows(t, OnIso(t, e).dc);
    }
  }

  /** A frame changes the targets exactly when it is, or falls through to, a CurrentDemand that is acted on:
      they become the requested values, negative ones cut to zero, and the output is not switched. Every
      other frame keeps the targets or switches the output off with both at zero. */
  lemma TargetsExactly(t: State, d: Decoded, e: Env)
    requires t.phase != ForAppProtocol
    ensures Follows(t, Dialogue(t, d, e).dc, IsoDemands(t), (t.protocol == Din || Falls(t)) && DinDemand(t))
  {
    hide OnDin, OnIso, Follows;
    if t.protocol == Iso2 {
      IsoTargets(t, e);
    } else {
      DinTargets(t, e);
    }
  }
}
