/** Where each kind of request leads the dialogue, alone and followed by the next. */
module HlcPhases {
  import opened Bytes
  import opened CpControl
  import opened DcCan
  import opened TcpSender
  import opened Hlc
  import opened HlcFindings

  // ---------------------------------------------------------------- ISO PowerDelivery

  /** The frame is an ISO PowerDelivery that the phase acts on. */
  predicate PowerActs(t: State) {
    && t.protocol == Iso2 && PowerDelivery in t.isoDoc.used
    && (|| t.phase == ForPowerDelivery || t.phase == ForCurrentDemand
        || (t.phase == ForSessionStop && MeteringReceipt !in t.isoDoc.used && SessionStop !in t.isoDoc.used))
  }

  /** Nothing is energised: output off, not charging, contactor commanded open. */
  predicate Off(t: State) {
    !t.dc.enabled && !t.charging && !t.relay.cmd
  }

  lemma IsoPowerLeads(t: State, e: Env)
    ensures var (p, ok, next) := IsoPower(t, t.isoDoc.progress, e);
            var started := t.isoDoc.progress == Begin && Closes(t.relay, e);
            && (ok <==> t.isoDoc.progress != Begin || Closes(t.relay, e))
            && (next == ForCurrentDemand <==> started)
            && (next == ForSessionStop <==> t.isoDoc.progress == End || (t.isoDoc.progress == Begin && !started))
            && (next == ForChargeParameter <==> t.isoDoc.progress == Renegotiate)
            && (!started ==> Off(p)) && (started ==> p.charging && p.relay.cmd)
            && p.protocol == t.protocol
  {
    hide DcOutputOn, StopPower, EnableOutput, SetTargets;
    DriveMeaning(t.relay, e.before, e.after);
  }

  lemma AnswerLeads(t: State, e: Env)
    ensures var r := AnswerIsoPower(t, e); var (p, ok, next) := IsoPower(t, t.isoDoc.progress, e);
            && r.phase == next && r.protocol == p.protocol
            && r.dc == p.dc && r.charging == p.charging && r.relay.cmd == p.relay.cmd
            && TallyOf(r.log).replies == TallyOf(p.log).replies + 1
  {
    hide IsoPower, Answer, ReportStatus, TallyOf;
  }

  lemma WatchLeads(t: State, p: Phase, now: u32)
    ensures var r := StartWatchdog(t, p, now);
            && r.phase == t.phase && r.protocol == t.protocol && r.dc == t.dc && r.charging == t.charging
            && r.relay == t.relay && TallyOf(r.log).replies == TallyOf(t.log).replies
  {
    hide StartWatchdog, TallyOf;
  }

  lemma PowerShape(t: State, d: Decoded, e: Env)
    requires PowerActs(t)
    ensures Dialogue(t, d, e) ==
            if t.phase == ForPowerDelivery then StartWatchdog(AnswerIsoPower(t, e), AnswerIsoPower(t, e).phase, e.now)
            else AnswerIsoPower(t, e)
  {
    hide AnswerIsoPower, StartWatchdog, IsoStop, IsoMetering, IsoCurrentDemand, OnDin;
  }

  /** An ISO PowerDelivery that is acted on leads to current demand exactly when it asks to start and the
      contactor is confirmed, to the session's end exactly when it asks to stop or the contactor is not
      confirmed, and back to ChargeParameterDiscovery exactly when it renegotiates; everything is off then,
      save for a start. */
  lemma IsoPowerLeadsExactly(t: State, d: Decoded, e: Env)
    requires PowerActs(t)
    ensures var r := Dialogue(t, d, e);
            var started := t.isoDoc.progress == Begin && Closes(t.relay, e);
            && (r.phase == ForCurrentDemand <==> started)
            && (r.phase == ForSessionStop <==>
                  t.isoDoc.progress == End || (t.isoDoc.progress == Begin && !Closes(t.relay, e)))
            && (r.phase == ForChargeParameter <==> t.isoDoc.progress == Renegotiate)
            && (!started ==> Off(r)) && (started ==> r.charging && r.relay.cmd)
            && r.protocol == Iso2
  {
    hide Dialogue, AnswerIsoPower, StartWatchdog, IsoPower, Closes;
    PowerShape(t, d, e);
    IsoPowerLeads(t, e);
    AnswerLeads(t, e);
    WatchLeads(AnswerIsoPower(t, e), AnswerIsoPower(t, e).phase, e.now);
  }

  // ---------------------------------------------------------------- two frames in a row

  /** A frame past the handshake is what the dialogue makes of its document. */
  lemma IsoFrameMeans(t: State, d: Decoded, e: Env)
    requires d.ok && t.protocol == Iso2 && t.phase != ForAppProtocol
    ensures OnFrame(t, d, e) == Dialogue(t.(rx := [], isoDoc := d.iso), d, e).(rx := [])
  {
    hide Dialogue;
  }

  lemma StopRequest(t: State, e: Env)
    requires t.phase == ForSessionStop && t.protocol == Iso2
    requires SessionStop in t.isoDoc.used && MeteringReceipt !in t.isoDoc.used
    ensures OnIso(t, e).phase == ForAppProtocol && Off(OnIso(t, e))
  {
    hide Answer, StopPower;
  }

  lemma StopDialogue(t: State, d: Decoded, e: Env)
    requires t.phase == ForSessionStop && t.protocol == Iso2
    requires SessionStop in t.isoDoc.used && MeteringReceipt !in t.isoDoc.used
    ensures Dialogue(t, d, e).phase == ForAppProtocol && Off(Dialogue(t, d, e))
  {
    hide OnIso, OnDin;
    StopRequest(t, e);
  }

  /** Stop, then SessionStop: the session is over and everything is off. */
  lemma StopThenSessionStop(t: State, d: Decoded, e: Env, d2: Decoded, e2: Env)
    requires PowerActs(t.(isoDoc := d.iso)) && d.ok && d.iso.progress == End
    requires d2.ok && SessionStop in d2.iso.used && MeteringReceipt !in d2.iso.used
    ensures var r := OnFrame(OnFrame(t, d, e), d2, e2); r.phase == ForAppProtocol && Off(r)
  {
    hide Dialogue, OnFrame;
    IsoFrameMeans(t, d, e);
    IsoPowerLeadsExactly(t.(rx := [], isoDoc := d.iso), d, e);
    var r := OnFrame(t, d, e);
    IsoFrameMeans(r, d2, e2);
    StopDialogue(r.(rx := [], isoDoc := d2.iso), d2, e2);
  }

  lemma ParameterRequest(t: State, d: Decoded, e: Env)
    requires t.phase == ForChargeParameter && t.protocol == Iso2 && ChargeParameter in t.isoDoc.used
    ensures Dialogue(t, d, e).phase == ForCableCheck
    ensures TallyOf(Dialogue(t, d, e).log).replies == TallyOf(t.log).replies + 1
  {
    hide AdvanceIso, OnDin, TallyOf;
    AdvanceTally(t, ChargeParameter, ForCableCheck, e);
    AdvancePhase(t, ChargeParameter, ForCableCheck, e);
  }

  lemma AdvancePhase(t: State, m: Msg, next: Phase, e: Env)
    ensures AdvanceIso(t, m, next, e).phase == next
  {
    hide Answer, ReportStatus, StartWatchdog;
  }

  /** Renegotiate, then ChargeParameterDiscovery: that request is answered, and CableCheck is next. */
  lemma RenegotiateThenParameters(t: State, d: Decoded, e: Env, d2: Decoded, e2: Env)
    requires PowerActs(t.(isoDoc := d.iso)) && d.ok && d.iso.progress == Renegotiate
    requires d2.ok && ChargeParameter in d2.iso.used
    ensures var r := OnFrame(t, d, e); var q := OnFrame(r, d2, e2);
            && Off(r) && q.phase == ForCableCheck
            && TallyOf(q.log).replies == TallyOf(r.log).replies + 1
  {
    hide Dialogue, OnFrame, TallyOf;
    IsoFrameMeans(t, d, e);
    IsoPowerLeadsExactly(t.(rx := [], isoDoc := d.iso), d, e);
    var r := OnFrame(t, d, e);
    IsoFrameMeans(r, d2, e2);
    ParameterRequest(r.(rx := [], isoDoc := d2.iso), d2, e2);
  }

  // ---------------------------------------------------------------- payment and authorization

  /** A payment option is selected that the station supports. */
  predicate Selects(t: State) {
    && t.protocol == Iso2 && t.phase == ForPaymentSelection
    && PaymentSelection in t.isoDoc.used && t.isoDoc.payment != OtherPayment
  }

  lemma SelectLeads(t: State, d: Decoded, e: Env)
    requires Selects(t)
    ensures var r := Dialogue(t, d, e);
            && r.phase == ForAuthorization && r.protocol == Iso2
            && (r.expectDetails && !r.detailsDone <==> t.isoDoc.payment == Contract)
  {
    hide Answer, ResetSession, StartWatchdog, OnDin;
  }

  /** Asks for authorization, and for nothing the phase would prefer. */
  predicate Authorizes(iso: IsoDoc) {
    Authorization in iso.used && PaymentDetails !in iso.used
  }

  lemma AuthorizeLeads(t: State, d: Decoded, e: Env)
    requires t.protocol == Iso2 && t.phase == ForAuthorization && Authorizes(t.isoDoc)
    ensures var r := Dialogue(t, d, e);
            if t.expectDetails && !t.detailsDone
            then r.phase == ForAuthorization && r.log == t.log + [Reply(Authorization, false, e.enc.Some?)]
            else r.phase == ForChargeParameter
                 && r.log == t.log + [Reply(Authorization, true, e.enc.Some?)] + [Armed]
  {
    hide Answer, StartWatchdog, OnDin, OrderOk, Progress, TallyOf;
  }

  lemma DetailsLead(t: State, d: Decoded, e: Env)
    requires t.protocol == Iso2 && t.phase == ForAuthorization && PaymentDetails in t.isoDoc.used
    ensures var r := Dialogue(t, d, e);
            r.phase == ForAuthorization && r.protocol == Iso2 && !r.expectDetails && r.detailsDone
  {
    hide Answer, OnDin;
  }

  /** Authorization right after the selection of a payment option succeeds exactly for external payment;
      with a contract it is a sequence error that changes nothing. */
  lemma AuthorizedExactly(t: State, d: Decoded, e: Env, d2: Decoded, e2: Env)
    requires d.ok && Selects(t.(isoDoc := d.iso)) && d2.ok && Authorizes(d2.iso)
    ensures var r := OnFrame(t, d, e); var q := OnFrame(r, d2, e2);
            && (q.phase == ForChargeParameter <==> d.iso.payment == ExternalPayment)
            && (q.phase == ForAuthorization <==> d.iso.payment == Contract)
            && (d.iso.payment == Contract ==> q.log == r.log + [Reply(Authorization, false, e2.enc.Some?)])
  {
    hide Dialogue, OnFrame;
    IsoFrameMeans(t, d, e);
    SelectLeads(t.(rx := [], isoDoc := d.iso), d, e);
    var r := OnFrame(t, d, e);
    IsoFrameMeans(r, d2, e2);
    AuthorizeLeads(r.(rx := [], isoDoc := d2.iso), d2, e2);
  }

  /** With the payment details in between it succeeds for a contract too. */
  lemma DetailsThenAuthorized(t: State, d: Decoded, e: Env, d2: Decoded, e2: Env)
    requires t.protocol == Iso2 && t.phase == ForAuthorization
    requires d.ok && PaymentDetails in d.iso.used && d2.ok && Authorizes(d2.iso)
    ensures OnFrame(OnFrame(t, d, e), d2, e2).phase == ForChargeParameter
  {
    hide Dialogue, OnFrame;
    IsoFrameMeans(t, d, e);
    DetailsLead(t.(rx := [], isoDoc := d.iso), d, e);
    var r := OnFrame(t, d, e);
    IsoFrameMeans(r, d2, e2);
    AuthorizeLeads(r.(rx := [], isoDoc := d2.iso), d2, e2);
  }

  // ---------------------------------------------------------------- DIN

  /** A DIN CurrentDemand, fresh or left over, keeps the phase; with ChargingComplete it ends charging,
      switches the output off and opens the contactor, and otherwise leaves all three. */
  lemma ChargingCompleteExactly(t: State, e: Env)
    requires t.phase == ForCurrentDemand && PowerDelivery !in t.dinDoc.used && CurrentDemand in t.dinDoc.used
    ensures var r := OnDin(t, e);
            && r.phase == ForCurrentDemand
            && (r.relay.cmd <==> t.relay.cmd && !t.dinDoc.complete)
            && (r.charging <==> t.charging && !t.dinDoc.complete)
            && (r.dc.enabled <==> t.dc.enabled && !t.dinDoc.complete)
  {
    hide Answer, ReportStatus;
  }

  /** A DIN PowerDelivery met while the session's end is awaited moves to current demand exactly when the
      vehicle is ready, and takes that for charging; contactor and output are not touched. */
  lemma LatePowerExactly(t: State, e: Env)
    requires t.phase == ForSessionStop && PowerDelivery in t.dinDoc.used
    requires MeteringReceipt !in t.dinDoc.used && SessionStop !in t.dinDoc.used
    ensures var r := OnDin(t, e);
            && (r.phase == ForCurrentDemand <==> t.dinDoc.ready)
            && (r.phase == ForSessionStop <==> !t.dinDoc.ready)
            && (r.charging <==> t.dinDoc.ready) && r.relay == t.relay && r.dc == t.dc
  {
    hide Answer;
  }

  // ---------------------------------------------------------------- frames without effect

  /** A frame that cannot be decoded, or an offer that is no request, changes documents at most. */
  lemma UndecodedHasNoEffect(t: State, d: Decoded, e: Env)
    requires !d.ok || (t.phase == ForAppProtocol && !d.isRequest)
    ensures var r := OnFrame(t, d, e);
            && r == t.(rx := [], isoDoc := r.isoDoc, dinDoc := r.dinDoc)
            && (t.phase == ForAppProtocol || t.protocol == Iso2 ==> r.dinDoc == t.dinDoc)
            && (t.phase == ForAppProtocol || t.protocol == Din ==> r.isoDoc == t.isoDoc)
  {
    hide OnIso, OnDin, Handshake;
  }
}
