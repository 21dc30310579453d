/** Which answer a frame gets, in every state past the handshake: to which request, and positive or not. */
module HlcReplies {
  import opened Bytes
  import opened CpControl
  import opened DcCan
  import opened TcpSender
  import opened Hlc
  import opened HlcFindings
  import opened HlcAnswers
  import opened HlcPhases

  /** The answers among log entries, oldest first. */
  function Replies(log: seq<Act>): seq<Act> {
    if log == [] then []
    else Replies(log[..|log| - 1]) + (if log[|log| - 1].Reply? then [log[|log| - 1]] else [])
  }

  lemma OneMoreAct(log: seq<Act>, a: Act)
    ensures Replies(log + [a]) == Replies(log) + (if a.Reply? then [a] else [])
  {
    assert (log + [a])[..|log|] == log;
  }

  /** From t to r exactly one answer was given. */
  predicate Replied(t: State, r: State, m: Msg, positive: bool, enc: Option<Data>) {
    Replies(r.log) == Replies(t.log) + [Reply(m, positive, enc.Some?)]
  }

  /** From t to r none was. */
  predicate Silent(t: State, r: State) {
    Replies(r.log) == Replies(t.log)
  }

  lemma SilentThenReplied(t: State, p: State, r: State, m: Msg, positive: bool, enc: Option<Data>)
    requires Silent(t, p) && Replied(p, r, m, positive, enc)
    ensures Replied(t, r, m, positive, enc)
  {
    hide Replies;
  }

  lemma RepliedThenSilent(t: State, p: State, r: State, m: Msg, positive: bool, enc: Option<Data>)
    requires Replied(t, p, m, positive, enc) && Silent(p, r)
    ensures Replied(t, r, m, positive, enc)
  {
    hide Replies;
  }

  lemma SameLog(t: State, r: State)
    requires r.log == t.log
    ensures Silent(t, r)
  {
  }

  lemma AnswerReplies(t: State, m: Msg, positive: bool, enc: Option<Data>, now: u32)
    ensures Replied(t, Answer(t, m, positive, enc, now), m, positive, enc)
  {
    hide Answer, Replies;
    OneMoreAct(t.log, Reply(m, positive, enc.Some?));
  }

  lemma WatchSilent(t: State, p: Phase, now: u32)
    ensures Silent(t, StartWatchdog(t, p, now))
  {
    hide StartWatchdog, Replies;
    OneMoreAct(t.log, Armed);
  }

  lemma ResetSilent(t: State, openBefore: bool)
    ensures Silent(t, ResetSession(t, openBefore))
  {
    hide ResetSession, Replies;
    OneMoreAct(t.log, Reset);
  }

  lemma OnSilent(t: State)
    ensures Silent(t, DcOutputOn(t))
  {
    hide DcOutputOn, Replies;
    OneMoreAct(t.log, DcOn);
  }

  // ---------------------------------------------------------------- single answers

  lemma AdvanceReplies(t: State, m: Msg, next: Phase, e: Env)
    ensures Replied(t, AdvanceIso(t, m, next, e), m, true, e.enc)
    ensures Replied(t, AdvanceDin(t, m, next, e), m, true, e.enc)
  {
    hide Answer, ReportStatus, StartWatchdog, Replied, Silent;
    var p := if CarriesStatus(m) then ReportStatus(t, e.status) else t;
    var r := Answer(p, m, true, e.enc, e.now).(phase := next);
    SameLog(t, p);
    AnswerReplies(p, m, true, e.enc, e.now);
    SameLog(Answer(p, m, true, e.enc, e.now), r);
    RepliedThenSilent(p, Answer(p, m, true, e.enc, e.now), r, m, true, e.enc);
    SilentThenReplied(t, p, r, m, true, e.enc);
    WatchSilent(r, next, e.now);
    RepliedThenSilent(t, r, StartWatchdog(r, next, e.now), m, true, e.enc);
  }

  /** Steps before and behind an answer that log nothing. */
  lemma AnsweredBetween(t: State, p: State, m: Msg, positive: bool, enc: Option<Data>, now: u32, r: State)
    requires Silent(t, p) && r.log == Answer(p, m, positive, enc, now).log
    ensures Replied(t, r, m, positive, enc)
  {
    hide Answer, Replied, Silent;
    AnswerReplies(p, m, positive, enc, now);
    SilentThenReplied(t, p, Answer(p, m, positive, enc, now), m, positive, enc);
    SameLog(Answer(p, m, positive, enc, now), r);
    RepliedThenSilent(t, Answer(p, m, positive, enc, now), r, m, positive, enc);
  }

  lemma IsoPowerSilent(t: State, e: Env)
    ensures Silent(t, IsoPower(t, t.isoDoc.progress, e).0)
  {
    hide DcOutputOn, StopPower, Drive, Silent;
    var moved := t.(relay := Drive(t.relay, true, e.before, e.after).0);
    SameLog(t, moved);
    OnSilent(moved);
    SameLog(t, StopPower(moved, e.openBefore));
    SameLog(t, StopPower(t, e.openBefore));
    SilentTrans(t, moved, DcOutputOn(moved));
  }

  lemma SilentTrans(t: State, p: State, r: State)
    requires Silent(t, p) && Silent(p, r)
    ensures Silent(t, r)
  {
    hide Replies;
  }

  lemma DinPowerSilent(t: State, e: Env)
    ensures Silent(t, DinPower(t, e).0)
  {
    hide DcOutputOn, EnableOutput, Drive, Silent;
    var moved := t.(relay := Drive(t.relay, true, e.before, e.after).0);
    SameLog(t, moved);
    OnSilent(moved);
    SilentTrans(t, moved, DcOutputOn(moved));
    SameLog(t, moved.(charging := false, dc := EnableOutput(t.dc, false)));
    SameLog(t, DinPowerOff(t, e));
  }

  lemma PowerReplies(t: State, e: Env)
    ensures Replied(t, AnswerIsoPower(t, e), PowerDelivery, t.isoDoc.progress != Begin || Closes(t.relay, e), e.enc)
    ensures Replied(t, AnswerDinPower(t, e), PowerDelivery, !t.dinDoc.ready || Closes(t.relay, e), e.enc)
  {
    hide Answer, ReportStatus, IsoPower, DinPower, Closes, Replied, Silent;
    IsoPowerSilent(t, e);
    IsoPowerLeads(t, e);
    var (p, ok, next) := IsoPower(t, t.isoDoc.progress, e);
    SameLog(p, ReportStatus(p, e.status));
    SilentTrans(t, p, ReportStatus(p, e.status));
    AnsweredBetween(t, ReportStatus(p, e.status), PowerDelivery, ok, e.enc, e.now, AnswerIsoPower(t, e));
    DinPowerSilent(t, e);
    DinPowerSays(t, e);
    var (q, done) := DinPower(t, e);
    var s := if t.phase == ForPowerDelivery then ReportStatus(q, e.status) else q;
    SameLog(q, s);
    SilentTrans(t, q, s);
    DinPowerTx(t, e);
    AnsweredBetween(t, s, PowerDelivery, done, e.enc, e.now, AnswerDinPower(t, e));
  }

  lemma DinPowerSays(t: State, e: Env)
    ensures DinPower(t, e).1 <==> !t.dinDoc.ready || Closes(t.relay, e)
  {
    hide DcOutputOn, EnableOutput;
  }

  lemma DemandReplies(t: State, e: Env)
    ensures Replied(t, IsoCurrentDemand(t, e), CurrentDemand, true, e.enc)
    ensures Replied(t, DinCurrentDemand(t, e), CurrentDemand, true, e.enc)
  {
    hide Answer, ReportStatus, StartWatchdog, SetTargets, EnableOutput, Drive, Replied, Silent;
    var set0 := ReportStatus(t.(dc := SetTargets(t.dc, t.isoDoc.v, t.isoDoc.i), charging := true), e.status);
    SameLog(t, set0);
    var r := Answer(set0, CurrentDemand, true, e.enc, e.now);
    AnsweredBetween(t, set0, CurrentDemand, true, e.enc, e.now, r);
    WatchSilent(r, ForCurrentDemand, e.now);
    RepliedThenSilent(t, r, IsoCurrentDemand(t, e), CurrentDemand, true, e.enc);
    var set1 := t.(dc := SetTargets(t.dc, t.dinDoc.v, t.dinDoc.i));
    var acted := ReportStatus(if t.dinDoc.complete then DinPowerOff(set1, e) else set1, e.status);
    SameLog(t, acted);
    AnsweredBetween(t, acted, CurrentDemand, true, e.enc, e.now, DinCurrentDemand(t, e));
  }

  lemma MeteringReplies(t: State, e: Env)
    ensures Replied(t, IsoMetering(t, e), MeteringReceipt, true, e.enc)
    ensures Replied(t, DinMetering(t, e), MeteringReceipt, true, e.enc)
  {
    hide Answer, ReportStatus, Replied, Silent;
    SameLog(t, ReportStatus(t, e.status));
    AnsweredBetween(t, ReportStatus(t, e.status), MeteringReceipt, true, e.enc, e.now, IsoMetering(t, e));
    var q := t.(relay := Feedback(t.relay, e.status));
    SameLog(t, q);
    AnsweredBetween(t, q, MeteringReceipt, true, e.enc, e.now, DinMetering(t, e));
  }

  lemma EndReplies(t: State, e: Env)
    ensures Replied(t, IsoStop(t, e), SessionStop, true, e.enc)
    ensures Replied(t, DinLatePower(t, e), PowerDelivery, true, e.enc)
    ensures Replied(t, Answer(t, SessionStop, true, e.enc, e.now).(charging := false, phase := ForAppProtocol),
                    SessionStop, true, e.enc)
  {
    hide Answer, StopPower, Replied, Silent;
    SameLog(t, t);
    AnsweredBetween(t, t, SessionStop, true, e.enc, e.now, IsoStop(t, e));
    AnsweredBetween(t, t, PowerDelivery, true, e.enc, e.now, DinLatePower(t, e));
    AnsweredBetween(t, t, SessionStop, true, e.enc, e.now,
                    Answer(t, SessionStop, true, e.enc, e.now).(charging := false, phase := ForAppProtocol));
  }

  lemma PaymentReplies(t: State, e: Env)
    ensures Replied(t, IsoPayment(t, e), PaymentSelection, t.isoDoc.payment != OtherPayment, e.enc)
  {
    hide Answer, ResetSession, StartWatchdog, Replied, Silent;
    var supported := t.isoDoc.payment != OtherPayment;
    var r := Answer(t, PaymentSelection, supported, e.enc, e.now);
    AnswerReplies(t, PaymentSelection, supported, e.enc, e.now);
    if supported {
      var q := r.(expectDetails := t.isoDoc.payment == Contract, detailsDone := t.isoDoc.payment != Contract,
                  phase := ForAuthorization);
      SameLog(r, q);
      WatchSilent(q, ForAuthorization, e.now);
      SilentTrans(r, q, IsoPayment(t, e));
    } else {
      ResetSilent(r, e.openBefore);
    }
    RepliedThenSilent(t, r, IsoPayment(t, e), PaymentSelection, supported, e.enc);
  }

  lemma AuthorizationReplies(t: State, e: Env)
    ensures Replied(t, IsoAuthorization(t, e), Authorization, t.detailsDone || !t.expectDetails, e.enc)
    ensures Replied(t, Answer(t, PaymentDetails, true, e.enc, e.now).(detailsDone := true, expectDetails := false),
                    PaymentDetails, true, e.enc)
  {
    hide Answer, AdvanceIso, Replied, Silent;
    AdvanceReplies(t, Authorization, ForChargeParameter, e);
    AnswerReplies(t, Authorization, false, e.enc, e.now);
    SameLog(t, t);
    AnsweredBetween(t, t, PaymentDetails, true, e.enc, e.now,
                    Answer(t, PaymentDetails, true, e.enc, e.now).(detailsDone := true, expectDetails := false));
  }

  // ---------------------------------------------------------------- which request is answered

  /** The request each phase waits for. */
  function Expected(p: Phase): Msg {
    match p
    case ForAppProtocol => AppProtocol
    case ForSessionSetup => SessionSetup
    case ForServiceDiscovery => ServiceDiscovery
    case ForPaymentSelection => PaymentSelection
    case ForAuthorization => Authorization
    case ForChargeParameter => ChargeParameter
    case ForCableCheck => CableCheck
    case ForPreCharge => PreCharge
    case ForPowerDelivery => PowerDelivery
    case ForCurrentDemand => CurrentDemand
    case ForSessionStop => SessionStop
  }

  /** The request of an ISO document that is answered last: the one expected, but payment details before
      authorization, PowerDelivery before and instead of the later requests. */
  function IsoAnswered(t: State): Msg {
    var used := t.isoDoc.used;
    if t.phase == ForAuthorization && PaymentDetails in used then PaymentDetails
    else if t.phase == ForCurrentDemand && PowerDelivery in used then PowerDelivery
    else if t.phase == ForSessionStop && SessionStop !in used then PowerDelivery
    else Expected(t.phase)
  }

  /** The same for a DIN document: a repeated PreCharge comes first, metering receipts have their place. */
  function DinAnswered(t: State): Msg {
    var used := t.dinDoc.used;
    match t.phase
    case ForPowerDelivery => if PreCharge in used then PreCharge else PowerDelivery
    case ForCurrentDemand =>
      if PowerDelivery in used then PowerDelivery else if CurrentDemand in used then CurrentDemand else MeteringReceipt
    case ForSessionStop =>
      if MeteringReceipt in used then MeteringReceipt else if SessionStop in used then SessionStop else PowerDelivery
    case _ => Expected(t.phase)
  }

  /** An ISO request is refused: an unsupported payment option, authorization before the details of a contract,
      a start whose contactor is not confirmed. */
  predicate IsoRefused(t: State, e: Env) {
    || Refuses(t)
    || (IsoAnswered(t) == Authorization && t.expectDetails && !t.detailsDone)
    || (IsoAnswered(t) == PowerDelivery && t.isoDoc.progress == Begin && !Closes(t.relay, e))
  }

  /** A DIN request is refused: a start whose contactor is not confirmed, while the session's end is not awaited. */
  predicate DinRefused(t: State, e: Env) {
    DinAnswered(t) == PowerDelivery && t.phase != ForSessionStop && t.dinDoc.ready && !Closes(t.relay, e)
  }

  // ---------------------------------------------------------------- the DIN branch

  lemma EarlyDinReplies(t: State, e: Env)
    requires t.phase != ForPowerDelivery && t.phase != ForCurrentDemand && t.phase != ForSessionStop && DinAnswers(t)
    ensures Replied(t, OnDin(t, e), DinAnswered(t), !DinRefused(t, e), e.enc)
  {
    hide OnDin, AdvanceDin, DinAnswers, Closes, Replied;
    EarlyDinShape(t, e);
    if t.phase == ForPaymentSelection {
      AdvanceReplies(t, PaymentSelection, ForAuthorization, e);
    } else {
      AdvanceReplies(t, DinTable(t.phase).value.0, DinTable(t.phase).value.1, e);
    }
  }

  lemma PowerDinReplies(t: State, e: Env)
    requires t.phase == ForPowerDelivery && DinAnswers(t)
    ensures Replied(t, OnDin(t, e), DinAnswered(t), !DinRefused(t, e), e.enc)
  {
    hide AdvanceDin, AnswerDinPower, Closes, Replied;
    if PreCharge in t.dinDoc.used {
      AdvanceReplies(t, PreCharge, ForPowerDelivery, e);
    } else {
      PowerReplies(t, e);
    }
  }

  lemma DemandDinReplies(t: State, e: Env)
    requires t.phase == ForCurrentDemand && DinAnswers(t)
    ensures Replied(t, OnDin(t, e), DinAnswered(t), !DinRefused(t, e), e.enc)
  {
    hide AnswerDinPower, DinCurrentDemand, DinMetering, Closes, Replied;
    if PowerDelivery in t.dinDoc.used {
      PowerReplies(t, e);
    } else if CurrentDemand in t.dinDoc.used {
      DemandReplies(t, e);
    } else {
      MeteringReplies(t, e);
    }
  }

  lemma StopDinReplies(t: State, e: Env)
    requires t.phase == ForSessionStop && DinAnswers(t)
    ensures Replied(t, OnDin(t, e), DinAnswered(t), !DinRefused(t, e), e.enc)
  {
    hide OnDin, Answer, DinMetering, DinLatePower, Closes, Replied;
    DinStopShape(t, e);
    MeteringReplies(t, e);
    EndReplies(t, e);
  }

  /** What the DIN branch answers, if anything. */
  predicate DinReplied(t: State, r: State, e: Env) {
    if DinAnswers(t) then Replied(t, r, DinAnswered(t), !DinRefused(t, e), e.enc) else Silent(t, r)
  }

  lemma DinReplies(t: State, e: Env)
    ensures DinReplied(t, OnDin(t, e), e)
  {
    if DinAnswers(t) {
      hide OnDin, DinAnswers, Replied, DinAnswered, DinRefused;
      match t.phase
      case ForPowerDelivery => PowerDinReplies(t, e);
      case ForCurrentDemand => DemandDinReplies(t, e);
      case ForSessionStop => StopDinReplies(t, e);
      case _ => EarlyDinReplies(t, e);
    } else {
      NothingAnswered(t, e);
    }
  }

  lemma NothingAnswered(t: State, e: Env)
    requires !DinAnswers(t)
    ensures Silent(t, OnDin(t, e))
  {
    hide AdvanceDin, AnswerDinPower, DinCurrentDemand, DinMetering, DinLatePower, Answer, Silent;
    SameLog(t, t);
    assert OnDin(t, e) == t;
  }

  // ---------------------------------------------------------------- the ISO branch

  lemma EarlyIsoReplies(t: State, e: Env)
    requires !Falls(t) && (t.phase == ForPaymentSelection || t.phase == ForAuthorization)
    ensures Replied(t, OnIso(t, e), IsoAnswered(t), !IsoRefused(t, e), e.enc)
  {
    hide Answer, IsoPayment, IsoAuthorization, OnDin, Closes, Replied;
    if t.phase == ForPaymentSelection {
      PaymentReplies(t, e);
    } else {
      AuthorizationReplies(t, e);
    }
  }

  lemma PowerPhaseReplies(t: State, e: Env)
    requires !Falls(t) && t.phase == ForPowerDelivery
    ensures Replied(t, OnIso(t, e), IsoAnswered(t), !IsoRefused(t, e), e.enc)
  {
    hide OnIso, Falls, AnswerIsoPower, StartWatchdog, Closes, Replied, Silent;
    LateShape(t, e);
    var p := AnswerIsoPower(t, e);
    PowerReplies(t, e);
    WatchSilent(p, p.phase, e.now);
    RepliedThenSilent(t, p, StartWatchdog(p, p.phase, e.now), PowerDelivery, !IsoRefused(t, e), e.enc);
  }

  /** What an ISO frame of the last two phases asks for. */
  lemma LateNames(t: State, e: Env)
    requires t.phase == ForCurrentDemand || t.phase == ForSessionStop
    ensures var used := t.isoDoc.used; var m := IsoAnswered(t);
            && (t.phase == ForCurrentDemand ==> m == if PowerDelivery in used then PowerDelivery else CurrentDemand)
            && (t.phase == ForSessionStop ==> m == if SessionStop in used then SessionStop else PowerDelivery)
            && (IsoRefused(t, e) <==> m == PowerDelivery && t.isoDoc.progress == Begin && !Closes(t.relay, e))
  {
    hide Closes;
  }

  lemma DemandPhaseReplies(t: State, e: Env)
    requires !Falls(t) && t.phase == ForCurrentDemand
    ensures Replied(t, OnIso(t, e), IsoAnswered(t), !IsoRefused(t, e), e.enc)
  {
    hide OnIso, Falls, AnswerIsoPower, IsoCurrentDemand, Closes, Replied, IsoAnswered, IsoRefused;
    LateShape(t, e);
    LateNames(t, e);
    if PowerDelivery in t.isoDoc.used {
      PowerReplies(t, e);
    } else {
      DemandReplies(t, e);
    }
  }

  lemma StopPhaseReplies(t: State, e: Env)
    requires !Falls(t) && t.phase == ForSessionStop
    ensures Replied(t, OnIso(t, e), IsoAnswered(t), !IsoRefused(t, e), e.enc)
  {
    hide OnIso, Falls, AnswerIsoPower, IsoStop, Closes, Replied, IsoAnswered, IsoRefused;
    LateShape(t, e);
    LateNames(t, e);
    if SessionStop in t.isoDoc.used {
      EndReplies(t, e);
    } else {
      PowerReplies(t, e);
    }
  }

  lemma TableIsoReplies(t: State, e: Env)
    requires !Falls(t) && IsoTable(t.phase).Some?
    ensures Replied(t, OnIso(t, e), IsoAnswered(t), !IsoRefused(t, e), e.enc)
  {
    hide OnIso, AdvanceIso, OnDin, Falls, Closes, Replied;
    TableShape(t, e);
    AdvanceReplies(t, IsoTable(t.phase).value.0, IsoTable(t.phase).value.1, e);
  }

  /** Where the ISO branch answers a metering receipt and goes on. */
  predicate TwoReplied(t: State, r: State, e: Env) {
    var q := IsoMetering(t, e);
    Replied(t, q, MeteringReceipt, true, e.enc) && DinReplied(q, r, SecondReadings(e))
  }

  /** The answers of every frame past the handshake. A DIN session, and an ISO frame without an ISO answer, get the
      DIN answer to the DIN document at hand, if there is one; an ISO metering receipt that falls through gets its
      own first; every other ISO frame gets exactly one. All are positive but for the refusals listed. */
  lemma RepliesExactly(t: State, d: Decoded, e: Env)
    requires t.phase != ForAppProtocol
    ensures var r := Dialogue(t, d, e);
            && (t.protocol == Din ==> DinReplied(t, r, e))
            && (t.protocol == Iso2 && MeteringFirst(t) ==> TwoReplied(t, r, e))
            && (t.protocol == Iso2 && Falls(t) && !MeteringFirst(t) ==> DinReplied(t, r, e))
            && (t.protocol == Iso2 && !Falls(t) ==> Replied(t, r, IsoAnswered(t), !IsoRefused(t, e), e.enc))
  {
    hide OnIso, OnDin, IsoMetering, Falls, MeteringFirst, Replied, DinReplied, IsoAnswered, IsoRefused;
    if t.protocol == Din {
      DinReplies(t, e);
    } else if MeteringFirst(t) {
      MeteringFallsToo(t);
      MeteringShape(t, e);
      MeteringReplies(t, e);
      DinReplies(IsoMetering(t, e), SecondReadings(e));
    } else if Falls(t) {
      FallsPlain(t, e);
      DinReplies(t, e);
    } else if IsoTable(t.phase).Some? {
      TableIsoReplies(t, e);
    } else if t.phase == ForPaymentSelection || t.phase == ForAuthorization {
      EarlyIsoReplies(t, e);
    } else if t.phase == ForPowerDelivery {
      PowerPhaseReplies(t, e);
    } else if t.phase == ForCurrentDemand {
      DemandPhaseReplies(t, e);
    } else {
      StopPhaseReplies(t, e);
    }
  }

  lemma MeteringFallsToo(t: State)
    requires MeteringFirst(t)
    ensures Falls(t)
  {
  }
}
