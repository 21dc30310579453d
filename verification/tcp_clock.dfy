/** The timers of a connection over whole runs, against an unbounded clock: when it counts as idle, when a
    payload is sent again and when it is given up, neither late nor early. */
module TcpClock {
  import opened Bytes
  import opened DcCan
  import opened IsoWatchdog
  import opened TcpSender
  import opened Hlc
  import opened TcpLink
  import opened HlcSafety
  import opened HlcDeadline
  import opened HlcWatch
  import opened TcpTransport
  import opened TcpHandshake
  import V2gtp

  function Resets(t: State): nat {
    TallyOf(t.log).resets
  }

  // ---------------------------------------------------------------- what counts as activity

  lemma ActivityTrans(t: State, r: State, q: State)
    requires KeepsActivity(t, r) && KeepsActivity(r, q)
    ensures KeepsActivity(t, q)
  {
    hide TallyOf;
  }

  /** Steps outside the dialogue. */
  lemma ActivityApart(t: State, r: State)
    requires r.log == t.log && r.lastActivity == t.lastActivity
    ensures KeepsActivity(t, r)
  {
    hide TallyOf;
  }

  lemma ResetActivity(t: State, openBefore: bool)
    ensures KeepsActivity(t, ResetSession(t, openBefore)) && Resets(ResetSession(t, openBefore)) == Resets(t) + 1
  {
    hide ResetSession, TallyOf;
  }

  lemma CloseActivity(t: State, openBefore: bool)
    ensures KeepsActivity(t, Close(t, openBefore))
  {
    hide ResetSession, TallyOf;
    ResetActivity(t.(tx := t.tx.(tcp := Closed)), openBefore);
  }

  lemma RearmsActivity(t: State, r: State, arms: bool, now: u32)
    requires Rearms(t, r, arms, now)
    ensures KeepsActivity(t, r)
  {
  }

  lemma DialogueActivity(t: State, d: Decoded, e: Env)
    ensures KeepsActivity(t, Dialogue(t, d, e))
  {
    hide OnIso, OnDin, Handshake, TallyOf, Rearms, Arms;
    if t.phase == ForAppProtocol {
      HandshakeTally(t, d.apps, e.now);
    } else {
      ArmsExactly(t, d, e);
      RearmsActivity(t, Dialogue(t, d, e), Arms(t), e.now);
    }
  }

  lemma FrameActivity(t: State, d: Decoded, e: Env)
    ensures KeepsActivity(t, OnFrame(t, d, e))
  {
    hide Dialogue, TallyOf;
    DialogueActivity(Decode(t, d), d, e);
  }

  lemma {:induction false} FramesActivity(t: State, n: nat, o: Oracle)
    ensures KeepsActivity(t, OnFrames(t, n, o))
  {
    hide OnFrame, KeepsActivity, OnFrames;
    OneMoreFrame(t, n, o);
    if n == 0 {
      ActivityApart(t, t);
    } else {
      FramesActivity(t, n - 1, o);
      var p := OnFrames(t, n - 1, o);
      FrameActivity(p, o(n - 1).d, o(n - 1).e);
      ActivityTrans(t, p, OnFrame(p, o(n - 1).d, o(n - 1).e));
    }
  }

  lemma PayloadActivity(t: State, payload: Data, o: Oracle, openBefore: bool)
    ensures KeepsActivity(t, BufferPayload(t, payload, o, openBefore))
  {
    hide OnFrames, ResetSession, V2gtp.Deframe, V2gtp.Accept, KeepsActivity;
    ActivityApart(t, t);
    ResetActivity(t, openBefore);
    var d := V2gtp.Deframe(V2gtp.Accept(t.rx, payload));
    var p := OnFrames(t, |d.frames|, o);
    FramesActivity(t, |d.frames|, o);
    ResetActivity(p, openBefore);
    ActivityTrans(t, p, ResetSession(p, openBefore));
    ActivityApart(p, p.(rx := d.rest));
    ActivityTrans(t, p, p.(rx := d.rest));
  }

  lemma EstablishedActivity(t: State, s: Seg, o: Oracle, openBefore: bool)
    ensures KeepsActivity(t, OnEstablished(t, s, o, openBefore))
  {
    hide BufferPayload, Close, ResetSession, Put, OnAck, KeepsActivity;
    ResetActivity(t, openBefore);
    var x := t.tx.(ackNr := (s.seqNr + |s.payload|) % TWO32, seqNr := s.ackNr);
    var u := t.(tx := Put(x, AckSent(x.seqNr, x.ackNr)));
    ActivityApart(t, t);
    ActivityApart(t, u);
    PayloadActivity(u, s.payload, o, openBefore);
    var t1 := if s.payload != [] then OnData(t, s, o, openBefore) else t;
    ActivityTrans(t, u, BufferPayload(u, s.payload, o, openBefore));
    var t2 := if s.ack then t1.(tx := OnAck(t1.tx, s.ackNr)) else t1;
    ActivityApart(t1, t2);
    ActivityTrans(t, t1, t2);
    FinActivity(t2, s, openBefore);
    ActivityTrans(t, t2, OnFin(t2, s, openBefore));
  }

  lemma FinActivity(t: State, s: Seg, openBefore: bool)
    ensures KeepsActivity(t, OnFin(t, s, openBefore))
  {
    hide Close, Put, KeepsActivity;
    var x := t.tx.(ackNr := (s.seqNr + |s.payload| + 1) % TWO32);
    var u := t.(tx := Put(x, AckSent(x.seqNr, x.ackNr)));
    ActivityApart(t, u);
    CloseActivity(u, openBefore);
    ActivityTrans(t, u, Close(u, openBefore));
  }

  lemma SegmentActivity(t: State, s: Seg, o: Oracle, e: Env)
    ensures KeepsActivity(if s.dstPort == 15118 then t.(lastActivity := e.now) else t, OnSegment(t, s, o, e))
  {
    hide OnEstablished, Close, OnSyn, KeepsActivity;
    var t1 := t.(lastActivity := e.now);
    ActivityApart(t, t);
    ActivityApart(t1, t1);
    CloseActivity(t1, e.openBefore);
    ActivityApart(t1, t1.(tx := OnSyn(t1.tx, s)));
    ActivityApart(t1, t1.(tx := t1.tx.(tcp := Established)));
    EstablishedActivity(t1, s, o, e.openBefore);
  }

  lemma RetryActivity(t: State, e: Env)
    ensures KeepsActivity(t, RetryStage(t, e)) && KeepsActivity(t, IdleStage(t, e))
  {
    hide Close, Retransmit, KeepsActivity;
    ActivityApart(t, t);
    CloseActivity(t, e.openBefore);
    ActivityApart(t, t.(tx := Retransmit(t.tx.(attempts := t.tx.attempts + 1), e.now)));
  }

  lemma WatchdogActivity(t: State, e: Env)
    ensures KeepsActivity(t, WatchdogStage(t, e))
  {
    hide ResetSession, Check, KeepsActivity;
    var t1 := t.(wd := Check(t.wd, e.now).0);
    ActivityApart(t, t1);
    ResetActivity(t1, e.openBefore);
    var r := ResetSession(t1, e.openBefore);
    ActivityTrans(t, t1, r);
    TransportResetActivity(r, e);
    ActivityTrans(t, r, TransportReset(r, e));
  }

  lemma TransportResetActivity(t: State, e: Env)
    ensures KeepsActivity(t, TransportReset(t, e))
  {
    hide ResetSession, KeepsActivity;
    var r := ResetSession(t, e.openBefore);
    ResetActivity(t, e.openBefore);
    ActivityApart(r, TransportReset(t, e));
    ActivityTrans(t, r, TransportReset(t, e));
  }

  lemma TickActivity(t: State, e: Env)
    ensures KeepsActivity(t, TcpTick(t, e))
  {
    hide RetryStage, IdleStage, WatchdogStage, KeepsActivity;
    ActivityApart(t, t);
    var t1 := RetryStage(t, e);
    RetryActivity(t, e);
    RetryActivity(t1, e);
    ActivityTrans(t, t1, IdleStage(t1, e));
    var t2 := if t.tx.tcp == Established then IdleStage(t1, e) else t;
    WatchdogActivity(t2, e);
    ActivityTrans(t, t2, WatchdogStage(t2, e));
  }

  lemma PilotActivity(t: State, c: bool, openBefore: bool)
    ensures KeepsActivity(t, CpCheck(t, c, openBefore))
  {
    hide KeepsActivity;
    ActivityApart(t, CpCheck(t, c, openBefore));
  }

  /** Something is heard: a segment for port 15118, socket data, or the opening of a socket connection. */
  predicate Hears(ev: Event) {
    match ev
    case Packet(s, _, _) => s.dstPort == 15118
    case SocketData(_, _, _) => true
    case TransportOpened(_) => true
    case _ => false
  }

  /** An event at `now`: what is heard is noted, and a reset forgets it. */
  lemma ActivityStep(t: State, ev: Event, now: u32)
    requires EventClocked(ev, now)
    ensures KeepsActivity(if Hears(ev) then t.(lastActivity := now) else t, Step(t, ev))
  {
    hide OnSegment, BufferPayload, TcpTick, CpCheck, TransportReset, RampTick, KeepsActivity, OracleClocked;
    match ev
    case Packet(s, o, e) => SegmentActivity(t, s, o, e);
    case SocketData(p, o, e) => PayloadActivity(t.(lastActivity := e.now), p, o, e.openBefore);
    case SocketSender(on) => ActivityApart(t, Step(t, ev));
    case TransportClosed(e) => TransportResetActivity(t, e);
    case TransportOpened(e) => ActivityApart(t.(lastActivity := e.now), Step(t, ev));
    case Tick(e) => TickActivity(t, e);
    case Pilot20ms(c, openBefore) => PilotActivity(t, c, openBefore);
    case DcTick(n) => ActivityApart(t, Step(t, ev));
  }

  /** A connection is established only by something heard. */
  lemma SilentlyNotOpened(t: State, ev: Event)
    requires !Hears(ev)
    ensures Step(t, ev).tx.tcp == t.tx.tcp || Step(t, ev).tx.tcp == Closed
  {
    hide OnEstablished, Close, CpCheck, RampTick, TcpTick, ResetSession;
    match ev
    case Tick(e) => TickTcp(t, e);
    case Pilot20ms(c, openBefore) => PilotLeavesTransport(t, c, openBefore);
    case _ =>
  }

  lemma TickTcp(t: State, e: Env)
    ensures TcpTick(t, e).tx.tcp == t.tx.tcp || TcpTick(t, e).tx.tcp == Closed
  {
    hide RetryStage, IdleStage, WatchdogStage, Expired, Check, IdleDue, RetryDue, LimitReached;
    if t.tx.tcp == Established {
      TickExactly(t, e);
    } else {
      WatchdogStageRests(t, e);
    }
  }

  // ---------------------------------------------------------------- over runs

  /** True time of what was last heard in the present session; none if the session was reset then or since. */
  function LastHeard(b: State, ts: seq<Timed>): Option<nat> {
    if ts == [] then None
    else
      var p, last := ts[..|ts| - 1], ts[|ts| - 1];
      if Resets(After(b, ts)) > Resets(After(b, p)) then None
      else if Hears(last.ev) then Some(last.at)
      else LastHeard(b, p)
  }

  /** True time of the last event that sent a payload over TCP, for the first time or again. */
  function LastSent(b: State, ts: seq<Timed>): nat {
    if ts == [] then 0
    else
      var p, last := ts[..|ts| - 1], ts[|ts| - 1];
      if Sendings(After(b, ts).tx.wire) > Sendings(After(b, p).tx.wire) then last.at else LastSent(b, p)
  }

  /** What the definitions over runs say of the last event. */
  lemma LastEvent(b: State, ts: seq<Timed>)
    requires ts != [] && Regular(ts)
    ensures var p, last := ts[..|ts| - 1], ts[|ts| - 1]; var t := After(b, p); var r := Step(t, last.ev);
            && After(b, ts) == r && Regular(p) && Now(p) <= last.at == Now(ts)
            && EventClocked(last.ev, Millis(last.at))
            && (last.ev.Tick? ==> last.at - LastTick(p) < TWO31)
            && LastTick(ts) == (if last.ev.Tick? then last.at else LastTick(p))
            && LastHeard(b, ts) == (if Resets(r) > Resets(t) then None
                                    else if Hears(last.ev) then Some(last.at) else LastHeard(b, p))
            && LastSent(b, ts) == (if Sendings(r.tx.wire) > Sendings(t.tx.wire) then last.at else LastSent(b, p))
  {
    hide Step, TallyOf, Sendings, EventClocked, EventEncodable, Hears;
  }

  /** The register of the last activity is the wrapped time of what was last heard, or zero. */
  predicate Noted(t: State, heard: Option<nat>, now: nat) {
    && t.lastActivity == (if heard.Some? then Millis(heard.value) else 0)
    && (heard.Some? ==> heard.value <= now)
  }

  lemma {:induction false} ActivityKept(b: State, ts: seq<Timed>)
    requires PoweredUp(b) && Regular(ts)
    ensures Noted(After(b, ts), LastHeard(b, ts), Now(ts)) && LastTick(ts) <= Now(ts)
  {
    if ts == [] {
      assert After(b, ts) == b && b.lastActivity == 0;
    } else {
      hide Step, After, Regular, LastHeard, LastSent, Hears, EventClocked, PoweredUp, TallyOf, Sendings, LastTick, Now;
      var p, last := ts[..|ts| - 1], ts[|ts| - 1];
      ActivityKept(b, p);
      LastEvent(b, ts);
      ActivityStep(After(b, p), last.ev, Millis(last.at));
      SameResets(After(b, p), Millis(last.at));
    }
  }

  lemma SameResets(t: State, now: u32)
    ensures Resets(t.(lastActivity := now)) == Resets(t)
  {
  }

  // ---------------------------------------------------------------- idle, in true time

  /** An open connection that was heard of was not idle at its last tick. */
  predicate IdleInTime(t: State, heard: Option<nat>, tick: nat) {
    t.tx.tcp == Established && t.lastActivity != 0 ==> heard.Some? && tick <= heard.value + 5000
  }

  /** More than five seconds have passed since something was heard in this session; a wrapped time of zero
      counts as never. */
  predicate Idle(heard: Option<nat>, at: nat) {
    heard.Some? && Millis(heard.value) != 0 && at > heard.value + 5000
  }

  lemma IdleMeans(t: State, heard: Option<nat>, tick: nat, now: nat, at: nat)
    requires Noted(t, heard, now) && IdleInTime(t, heard, tick) && t.tx.tcp == Established
    requires tick <= now <= at < tick + TWO31
    ensures IdleDue(t, Millis(at)) <==> Idle(heard, at)
  {
    if heard.Some? && Millis(heard.value) != 0 {
      ElapsedExact(heard.value, at);
    }
  }

  lemma IdleTick(t: State, ev: Event)
    requires ev.Tick? && t.tx.tcp == Established && IdleDue(t, ev.e.now)
    ensures Step(t, ev).tx.tcp == Closed
  {
    hide TcpTick, Expired, Check, IdleDue, RetryDue, LimitReached;
    TickExactly(t, ev.e);
  }

  /** One event at true time `at`, what was last heard becoming h. */
  lemma IdleOneEvent(t: State, ev: Event, heard: Option<nat>, h: Option<nat>, tick: nat, now: nat, at: nat)
    requires Noted(t, heard, now) && IdleInTime(t, heard, tick) && tick <= now <= at
    requires EventClocked(ev, Millis(at)) && (ev.Tick? ==> at - tick < TWO31)
    requires Noted(Step(t, ev), h, at)
    requires h.Some? ==> h == if Hears(ev) then Some(at) else heard
    ensures IdleInTime(Step(t, ev), h, if ev.Tick? then at else tick)
  {
    hide Step, TcpTick, IdleDue, OracleClocked;
    if h.Some? && !Hears(ev) {
      SilentlyNotOpened(t, ev);
      if ev.Tick? && t.tx.tcp == Established {
        IdleMeans(t, heard, tick, now, at);
        if IdleDue(t, ev.e.now) {
          IdleTick(t, ev);
        }
      }
    }
  }

  lemma {:induction false} IdleKept(b: State, ts: seq<Timed>)
    requires PoweredUp(b) && Regular(ts)
    ensures IdleInTime(After(b, ts), LastHeard(b, ts), LastTick(ts))
  {
    if ts == [] {
      assert After(b, ts) == b && b.tx.tcp == Closed;
    } else {
      hide Step, After, Regular, LastHeard, LastSent, Hears, EventClocked, PoweredUp, TallyOf, Sendings, LastTick, Now,
           Noted, IdleInTime;
      var p, last := ts[..|ts| - 1], ts[|ts| - 1];
      IdleKept(b, p);
      ActivityKept(b, p);
      ActivityKept(b, ts);
      LastEvent(b, ts);
      IdleOneEvent(After(b, p), last.ev, LastHeard(b, p), LastHeard(b, ts), LastTick(p), Now(p), last.at);
    }
  }

  // ---------------------------------------------------------------- sending again, in true time

  /** A pending payload was last sent at `sent`, and was not overdue at the last tick. */
  predicate PendingInTime(t: State, sent: nat, tick: nat, now: nat) {
    && sent <= now
    && (t.tx.awaiting ==> t.tx.lastTx == Millis(sent) && tick <= sent + 1000)
  }

  lemma RetryMeans(t: State, sent: nat, tick: nat, now: nat, at: nat)
    requires PendingInTime(t, sent, tick, now) && TcpSender.Sound(t.tx)
    requires tick <= now <= at < tick + TWO31
    ensures RetryDue(t, Millis(at)) <==> t.tx.awaiting && at > sent + 1000
  {
    hide WireOk, AgainRun, LastFresh;
    if t.tx.awaiting {
      ElapsedExact(sent, at);
    }
  }

  /** A tick of an open connection with a payload pending either sends it again, or leaves it alone if it is
      not due, or leaves nothing pending. */
  lemma PendingTick(t: State, e: Env)
    requires t.tx.tcp == Established && TcpSender.Sound(t.tx) && t.tx.awaiting
    ensures var r := TcpTick(t, e);
            r.tx.awaiting ==> if RetryDue(t, e.now) then Sendings(r.tx.wire) > Sendings(t.tx.wire)
                              else r.tx.wire == t.tx.wire
  {
    hide TcpTick, Retransmit, Expired, Check, RetryDue, IdleDue, WireOk, AgainRun, LastFresh, Sendings;
    TickExactly(t, e);
    if RetryDue(t, e.now) && t.tx.attempts < MAX_RETRANSMIT {
      RetrySound(t.tx, e.now);
      OneMoreEntry(t.tx.wire, Again(t.tx.seqNr, t.tx.ackNr, t.tx.last));
    }
  }

  lemma PendingOneEvent(t: State, ev: Event, sent: nat, tick: nat, now: nat, at: nat)
    requires PendingInTime(t, sent, tick, now) && TcpSender.Sound(t.tx) && Settled(t.tx)
    requires tick <= now <= at && EventClocked(ev, Millis(at)) && (ev.Tick? ==> at - tick < TWO31)
    requires SentAt(t.tx, Step(t, ev).tx, Millis(at))
    ensures var r := Step(t, ev);
            PendingInTime(r, if Sendings(r.tx.wire) > Sendings(t.tx.wire) then at else sent,
                          if ev.Tick? then at else tick, at)
  {
    hide TcpTick, OnSegment, SocketPayload, CpCheck, TransportReset, RampTick, RetryDue, WireOk, AgainRun, LastFresh,
         Sendings, OracleClocked;
    if ev.Tick? && t.tx.awaiting {
      RetryMeans(t, sent, tick, now, at);
      PendingTick(t, ev.e);
    }
  }

  lemma {:induction false} PendingKept(b: State, ts: seq<Timed>)
    requires PoweredUp(b) && Regular(ts)
    ensures PendingInTime(After(b, ts), LastSent(b, ts), LastTick(ts), Now(ts)) && Settled(After(b, ts).tx)
  {
    if ts == [] {
      assert After(b, ts) == b && !b.tx.awaiting;
    } else {
      hide Step, After, Regular, LastHeard, LastSent, Hears, EventClocked, PoweredUp, TallyOf, Sendings, LastTick, Now,
           Good, Watched, PendingInTime, Settled, SynAcks, AnswerDue, SentAt;
      var p, last := ts[..|ts| - 1], ts[|ts| - 1];
      PendingKept(b, p);
      ActivityKept(b, p);
      AfterGood(b, p);
      GoodSender(After(b, p));
      LastEvent(b, ts);
      StepAnswers(After(b, p), last.ev, Some(Millis(last.at)));
      PendingOneEvent(After(b, p), last.ev, LastSent(b, p), LastTick(p), Now(p), last.at);
    }
  }

  // ---------------------------------------------------------------- a tick, in true time

  /** How often the pending payload has been sent again. */
  lemma PendingAgain(t: State)
    requires Good(t)
    ensures t.tx.awaiting ==> AgainRun(t.tx.wire) == t.tx.attempts <= 3
  {
    hide WireOk, AgainRun, LastFresh, OrderOk, Progress, TallyOf;
  }

  /** In every run, against an unbounded clock, what the next tick of an open connection does: the connection is
      closed exactly when nothing was heard for more than five seconds, or a payload sent more than one second
      ago has been sent again three times, or an expired watchdog gives up at once; with the connection, or
      with any expiry of the watchdog, the session ends; otherwise a payload sent more than one second ago is
      sent again, and nothing else changes. */
  lemma TickInTrueTime(b: State, ts: seq<Timed>, e: Env, at: nat)
    requires PoweredUp(b) && Regular(ts + [Timed(Tick(e), at)]) && 0 < b.wd.timeout <= TWO31
    requires After(b, ts).tx.tcp == Established
    ensures var t := After(b, ts); var r := TcpTick(t, e);
            var idle := Idle(LastHeard(b, ts), at);
            var retry := t.tx.awaiting && at > LastSent(b, ts) + 1000;
            var spent := retry && AgainRun(t.tx.wire) == 3;
            var expired := t.wd.active && at > LastArmed(b, ts) + b.wd.timeout;
            && (r.tx.tcp == Closed <==> idle || spent || (expired && b.wd.maxRetries == 1))
            && (idle || spent || expired ==> Ended(r))
            && (!(idle || spent || expired) ==>
                  r == t.(tx := r.tx)
                  && (if retry then r.tx == t.tx.(attempts := t.tx.attempts + 1, lastTx := e.now,
                                       wire := t.tx.wire + [Again(t.tx.seqNr, t.tx.ackNr, t.tx.last)])
                      else r.tx == t.tx))
  {
    hide After, Regular, LastHeard, LastSent, LastArmed, PoweredUp, LastTick, Now, TcpTick, Expired, Check, IdleDue, Idle,
         RetryDue, Good, Watched, Noted, IdleInTime, PendingInTime, AgainRun, Retransmit, EventClocked, EventEncodable;
    var all := ts + [Timed(Tick(e), at)];
    assert all[..|all| - 1] == ts && all[|all| - 1] == Timed(Tick(e), at);
    var t := After(b, ts);
    TickAhead(ts, e, at);
    ActivityKept(b, ts);
    IdleKept(b, ts);
    PendingKept(b, ts);
    AfterGood(b, ts);
    GoodSender(t);
    PendingAgain(t);
    IdleMeans(t, LastHeard(b, ts), LastTick(ts), Now(ts), at);
    RetryMeans(t, LastSent(b, ts), LastTick(ts), Now(ts), at);
    ExpiresExactly(b, ts, e, at);
    FirstRetry(t.wd, e.now);
    TickExactly(t, e);
    RetryPending(t, e.now);
    if t.tx.awaiting && t.tx.attempts < MAX_RETRANSMIT {
      RetrySound(t.tx, e.now);
    }
  }

  /** What a tick about to follow owes the regularity of the run. */
  lemma TickAhead(ts: seq<Timed>, e: Env, at: nat)
    requires Regular(ts + [Timed(Tick(e), at)])
    ensures Regular(ts) && Now(ts) <= at < LastTick(ts) + TWO31 && e.now == Millis(at)
  {
    hide EventEncodable;
    var all := ts + [Timed(Tick(e), at)];
    assert all[..|all| - 1] == ts && all[|all| - 1] == Timed(Tick(e), at);
  }
}
