/** What the transport guarantees over whole runs: a connection that is not established has nothing going
    on behind it, a payload goes out at most four times, and silence ends the session. */
module TcpTransport {
  import opened Bytes
  import opened CpControl
  import opened DcCan
  import opened IsoWatchdog
  import opened TcpSender
  import opened Hlc
  import opened TcpLink
  import opened HlcSafety
  import opened HlcDeadline
  import V2gtp

  // ---------------------------------------------------------------- nothing behind a closed connection

  /** No dialogue, no charging, no buffered bytes, nothing awaiting acknowledgement. */
  predicate AtRest(t: State) {
    t.phase == ForAppProtocol && !t.charging && t.rx == [] && !t.tx.awaiting
  }

  predicate RestUnlessOpen(t: State) {
    t.tx.tcp != Established ==> AtRest(t)
  }

  lemma ResetRests(t: State, openBefore: bool)
    ensures AtRest(ResetSession(t, openBefore)) && ResetSession(t, openBefore).tx.tcp == t.tx.tcp
  {
    hide ResetSession;
  }

  lemma PayloadKeepsTcp(t: State, payload: Data, o: Oracle, openBefore: bool)
    requires Good(t)
    ensures BufferPayload(t, payload, o, openBefore).tx.tcp == t.tx.tcp
  {
    hide ResetSession, OnFrames, Good, V2gtp.Deframe;
    ResetRests(t, openBefore);
    if payload != [] {
      var n := |V2gtp.Deframe(V2gtp.Accept(t.rx, payload)).frames|;
      FramesFine(t, n, o, 0);
      ResetRests(OnFrames(t, n, o), openBefore);
    }
  }

  lemma DataKeepsTcp(t: State, s: Seg, o: Oracle, openBefore: bool)
    requires Good(t)
    ensures OnData(t, s, o, openBefore).tx.tcp == t.tx.tcp
  {
    hide BufferPayload, Put, Good;
    GoodSender(t);
    var x := t.tx.(ackNr := (s.seqNr + |s.payload|) % TWO32, seqNr := s.ackNr);
    var w := AckSent(x.seqNr, x.ackNr);
    PutControl(x, w);
    OnlyTransport(t, Put(x, w), t.rx, t.lastActivity, 0);
    PayloadKeepsTcp(t.(tx := Put(x, w)), s.payload, o, openBefore);
  }

  lemma FinRests(t: State, s: Seg, openBefore: bool)
    ensures AtRest(OnFin(t, s, openBefore))
  {
    hide ResetSession, Put;
    var y := t.tx.(ackNr := (s.seqNr + |s.payload| + 1) % TWO32);
    ResetRests(t.(tx := Put(y, AckSent(y.seqNr, y.ackNr)).(tcp := Closed)), openBefore);
  }

  lemma EstablishedRests(t: State, s: Seg, o: Oracle, openBefore: bool)
    requires Good(t) && t.tx.tcp == Established
    ensures RestUnlessOpen(OnEstablished(t, s, o, openBefore))
  {
    hide ResetSession, OnData, OnFin, Good, OnAck;
    ResetRests(t, openBefore);
    DataKeepsTcp(t, s, o, openBefore);
    var t1 := if s.payload != [] then OnData(t, s, o, openBefore) else t;
    AckKeepsTcp(t1.tx, s.ackNr);
    FinRests(if s.ack then t1.(tx := OnAck(t1.tx, s.ackNr)) else t1, s, openBefore);
  }

  lemma AckKeepsTcp(x: Sender, a: u32)
    ensures OnAck(x, a).tcp == x.tcp
  {
  }

  lemma SegmentRests(t: State, s: Seg, o: Oracle, e: Env)
    requires Good(t) && RestUnlessOpen(t)
    ensures RestUnlessOpen(OnSegment(t, s, o, e))
  {
    hide OnEstablished, ResetSession, Good;
    GoodSender(t);
    OnlyTransport(t, t.tx, t.rx, e.now, e.now);
    var t1 := t.(lastActivity := e.now);
    ResetRests(t1.(tx := t1.tx.(tcp := Closed)), e.openBefore);
    if t.tx.tcp == Established {
      EstablishedRests(t1, s, o, e.openBefore);
    }
  }

  predicate LimitReached(t: State, now: u32) {
    RetryDue(t, now) && t.tx.attempts >= MAX_RETRANSMIT
  }

  /** The session is over: nothing going on, nothing timed any more, no payment option remembered. */
  predicate Ended(t: State) {
    AtRest(t) && t.lastActivity == 0 && !t.wd.active && !t.expectDetails && !t.detailsDone
  }

  lemma CloseEnds(t: State, openBefore: bool)
    ensures Ended(Close(t, openBefore)) && Close(t, openBefore).tx.tcp == Closed
  {
    hide ResetSession;
    ResetRests(t.(tx := t.tx.(tcp := Closed)), openBefore);
  }

  /** The first two stages of a tick. */
  lemma TransportStages(t: State, e: Env)
    requires t.tx.tcp == Established
    ensures var r := IdleStage(RetryStage(t, e), e);
            if LimitReached(t, e.now) || IdleDue(t, e.now) then Ended(r) && r.tx.tcp == Closed
            else r == t.(tx := if RetryDue(t, e.now)
                               then Retransmit(t.tx.(attempts := t.tx.attempts + 1), e.now) else t.tx)
                 && r.tx.tcp == Established
  {
    hide Close, Retransmit;
    CloseEnds(t, e.openBefore);
    RetransmitKeepsTcp(t.tx.(attempts := t.tx.attempts + 1), e.now);
    CloseEnds(RetryStage(t, e), e.openBefore);
  }

  /** A tick of an established connection: it is closed exactly when the retransmission limit is reached,
      the connection has idled too long, or the watchdog gives up; and the session is reset exactly when
      one of these or any watchdog expiry occurs. */
  lemma TickExactly(t: State, e: Env)
    requires t.tx.tcp == Established
    ensures var r := TcpTick(t, e);
            var due := LimitReached(t, e.now) || IdleDue(t, e.now);
            && (r.tx.tcp == Closed <==> due || Check(t.wd, e.now).1 == Fatal)
            && (r.tx.tcp == Closed || r.tx.tcp == Established)
            && (due || Expired(t.wd, e.now) ==> Ended(r))
            && (!due && !Expired(t.wd, e.now) ==>
                  r == t.(tx := if RetryDue(t, e.now)
                                then Retransmit(t.tx.(attempts := t.tx.attempts + 1), e.now) else t.tx))
  {
    hide RetryStage, IdleStage, WatchdogStage, Retransmit, Expired, LimitReached, IdleDue, RetryDue;
    TransportStages(t, e);
    var r := IdleStage(RetryStage(t, e), e);
    InactiveNeverExpires(r.wd, e.now);
    WatchdogStageRests(r, e);
  }

  lemma RetransmitKeepsTcp(x: Sender, now: u32)
    ensures Retransmit(x, now).tcp == x.tcp
  {
  }

  lemma InactiveNeverExpires(w: Watchdog, now: u32)
    ensures !w.active ==> !Expired(w, now)
  {
  }

  lemma WatchdogStageRests(t: State, e: Env)
    ensures var r := WatchdogStage(t, e);
            && (!Expired(t.wd, e.now) ==> r == t)
            && (Expired(t.wd, e.now) ==> Ended(r))
            && r.tx.tcp == (if Check(t.wd, e.now).1 == Fatal then Closed else t.tx.tcp)
            && (Check(t.wd, e.now).1 == Fatal ==> Expired(t.wd, e.now))
  {
    hide ResetSession, Expired, Check, AtRest;
    CheckMeans(t.wd, e.now);
    var t1 := t.(wd := Check(t.wd, e.now).0);
    ResetEnds(t1, e.openBefore);
    ResetEnds(ResetSession(t1, e.openBefore), e.openBefore);
    ClosedRests(ResetSession(ResetSession(t1, e.openBefore), e.openBefore));
  }

  lemma CheckMeans(w: Watchdog, now: u32)
    ensures Check(w, now).1 == Ok <==> !Expired(w, now)
    ensures !Expired(w, now) ==> Check(w, now).0 == w
  {
    hide Expired;
  }

  lemma ResetEnds(t: State, openBefore: bool)
    ensures Ended(ResetSession(t, openBefore)) && ResetSession(t, openBefore).tx.tcp == t.tx.tcp
  {
    hide ResetSession;
  }

  lemma ClosedRests(t: State)
    requires AtRest(t)
    ensures AtRest(t.(tx := t.tx.(tcp := Closed)))
  {
  }

  // ---------------------------------------------------------------- bytes that end a session

  /** Received bytes end the session exactly as reassembly rejects them; else what reassembly left over is what
      stays buffered, once the complete frames are handled. */
  lemma BufferedExactly(t: State, payload: Data, o: Oracle, openBefore: bool)
    ensures var d := V2gtp.Feed(t.rx, payload); var r := BufferPayload(t, payload, o, openBefore);
            if d.end == V2gtp.Rejected then Ended(r) else r.rx == d.rest
  {
    hide OnFrames, ResetSession, V2gtp.Deframe, V2gtp.Accept;
    ResetEnds(t, openBefore);
    ResetEnds(OnFrames(t, |V2gtp.Feed(t.rx, payload).frames|, o), openBefore);
  }

  /** A segment of a thousand bytes or more ends the session, unanswered; the connection stays. */
  lemma OversizeEnds(t: State, s: Seg, o: Oracle, e: Env)
    requires t.tx.tcp == Established && s.dstPort == 15118 && !s.rst && (s.ack || !s.syn) && |s.payload| >= 1000
    ensures var r := OnSegment(t, s, o, e);
            Ended(r) && r.tx.tcp == Established && r.tx.wire == t.tx.wire
  {
    hide ResetSession;
    ResetEnds(t.(lastActivity := e.now), e.openBefore);
  }

  lemma TickRests(t: State, e: Env)
    requires RestUnlessOpen(t)
    ensures RestUnlessOpen(TcpTick(t, e))
  {
    hide ResetSession, Expired, WatchdogStage, RetryStage;
    if t.tx.tcp == Established {
      TickExactly(t, e);
    } else {
      WatchdogStageRests(t, e);
    }
  }

  lemma StepRests(t: State, ev: Event)
    requires Good(t) && RestUnlessOpen(t) && (ev.SocketData? ==> t.tx.tcp == Established)
    ensures RestUnlessOpen(Step(t, ev))
  {
    hide OnSegment, BufferPayload, TcpTick, ResetSession, Good, Drive, EnableOutput, RampTick;
    match ev
    case Packet(s, o, e) => SegmentRests(t, s, o, e);
    case SocketData(p, o, e) =>
      GoodSender(t);
      OnlyTransport(t, t.tx, t.rx, e.now, e.now);
      PayloadKeepsTcp(t.(lastActivity := e.now), p, o, e.openBefore);
    case TransportClosed(e) => ResetRests(t, e.openBefore);
    case Tick(e) => TickRests(t, e);
    case _ =>
  }

  /** The socket hands over data only while the connection counts as established. */
  predicate SocketOnlyOpen(b: State, es: seq<Event>) {
    forall k :: 0 <= k < |es| && es[k].SocketData? ==> Run(b, es[..k]).tx.tcp == Established
  }

  /** Over whole runs, whatever arrives on the raw path and whatever the timers do: a connection that
      is not established has nothing going on behind it. */
  lemma {:induction false} ClosedMeansAtRest(b: State, es: seq<Event>)
    requires PoweredUp(b) && SocketOnlyOpen(b, es)
    ensures Run(b, es).tx.tcp != Established ==> AtRest(Run(b, es))
  {
    if es != [] {
      var p, ev := es[..|es| - 1], es[|es| - 1];
      assert forall k :: 0 <= k < |p| ==> p[k] == es[k] && p[..k] == es[..k];
      ClosedMeansAtRest(b, p);
      RunGood(b, p);
      hide Good, Step;
      StepRests(Run(b, p), ev);
    }
  }

  // ---------------------------------------------------------------- socket data behind a closed connection

  /** The frame is a handshake that is answered, so that it opens a session. */
  predicate Opens(d: Decoded) {
    d.ok && d.isRequest && (AnsweredSome(d.apps, DinScheme) || AnsweredSome(d.apps, Iso2Scheme))
  }

  /** A closed connection with nothing going on but its phase. */
  predicate Idle(t: State) {
    t.tx.tcp != Established && !t.charging && t.rx == [] && !t.tx.awaiting
  }

  lemma OneAppIdle(t: State, a: App, now: u32)
    requires Idle(t)
    ensures Idle(OneApp(t, a, now))
  {
    hide Answer, StartWatchdog;
  }

  lemma {:induction false} HandshakeIdle(t: State, apps: seq<App>, now: u32)
    requires Idle(t)
    ensures Idle(Handshake(t, apps, now))
    decreases |apps|
  {
    if apps != [] {
      hide OneApp, Idle;
      OneAppIdle(t, apps[0], now);
      HandshakeIdle(OneApp(t, apps[0], now), apps[1..], now);
    }
  }

  /** A frame met behind a closed, resting connection leaves it at rest exactly when it opens no session. */
  lemma FrameRests(t: State, d: Decoded, e: Env)
    requires Idle(t) && t.phase == ForAppProtocol
    ensures var r := OnFrame(t, d, e); Idle(r) && (r.phase == ForAppProtocol <==> !Opens(d))
  {
    hide OnIso, OnDin, Handshake, AnsweredSome;
    var s := t.(rx := []);
    assert Decode(t, d) == s;
    HandshakeIdle(s, d.apps, e.now);
    HandshakeOutcome(s, d.apps, e.now);
  }

  lemma OneFrameOnly(t: State, o: Oracle)
    ensures OnFrames(t, 0, o) == t && OnFrames(t, 1, o) == OnFrame(t, o(0).d, o(0).e)
  {
    hide OnFrame;
    assert OnFrames(t, 1, o) == OnFrame(OnFrames(t, 0, o), o(0).d, o(0).e);
  }

  /** Socket data of at most one frame leaves a closed, resting connection at rest exactly when it is rejected,
      or leaves no bytes over and carries no handshake that is answered. */
  lemma SocketLeavesAtRestExactly(t: State, payload: Data, o: Oracle, e: Env)
    requires t.tx.tcp != Established && AtRest(t)
    requires |V2gtp.Feed([], payload).frames| <= 1
    ensures var d := V2gtp.Feed([], payload);
            AtRest(SocketPayload(t, payload, o, e)) <==>
              || d.end == V2gtp.Rejected
              || (d.rest == [] && (d.frames == [] || !Opens(o(0).d)))
  {
    hide OnFrame, OnFrames, ResetSession, V2gtp.Deframe, V2gtp.Accept, Opens;
    var t1 := t.(lastActivity := e.now);
    OneFrameOnly(t1, o);
    FrameRests(t1, o(0).d, o(0).e);
    var d := V2gtp.Feed([], payload);
    ResetRests(t1, e.openBefore);
    ResetRests(OnFrames(t1, |d.frames|, o), e.openBefore);
  }

  // ---------------------------------------------------------------- at most four times

  function Agains(w: seq<Wire>): nat {
    if w == [] then 0 else Agains(w[..|w| - 1]) + (if w[|w| - 1].Again? then 1 else 0)
  }

  predicate NoFresh(w: seq<Wire>) {
    forall k :: 0 <= k < |w| ==> !w[k].Fresh?
  }

  lemma {:induction false} RunSince(w: seq<Wire>, j: nat)
    requires j < |w| && w[j].Fresh? && NoFresh(w[j + 1..])
    ensures AgainRun(w) == Agains(w[j + 1..]) && LastFresh(w) == Some(w[j].payload)
  {
    if j + 1 < |w| {
      var p := w[..|w| - 1];
      assert p[j + 1..] == w[j + 1..][..|w| - j - 2];
      assert w[j + 1..][|w| - j - 2] == w[|w| - 1];
      RunSince(p, j);
    }
  }

  /** In every run, after a payload's first transmission and until the next first transmission, what
      is retransmitted are its very bytes, and at most three times. */
  lemma AtMostFourTimes(b: State, es: seq<Event>, j: nat, k: nat)
    requires PoweredUp(b)
    requires var w := Run(b, es).tx.wire; j < k <= |w| && w[j].Fresh? && NoFresh(w[j + 1..k])
    ensures var w := Run(b, es).tx.wire;
            && Agains(w[j + 1..k]) <= MAX_RETRANSMIT
            && forall i :: j < i < k && w[i].Again? ==> w[i].payload == w[j].payload
  {
    hide Run, PoweredUp, Agains;
    RunGood(b, es);
    var w := Run(b, es).tx.wire;
    GoodWire(Run(b, es));
    BoundedRun(w, j, k);
    forall i | j < i < k && w[i].Again? ensures w[i].payload == w[j].payload {
      NoFreshBefore(w, j, i, k);
      RepeatsFresh(w, j, i);
    }
  }

  lemma RepeatsFresh(w: seq<Wire>, j: nat, i: nat)
    requires WireOk(w) && j < i < |w| && w[j].Fresh? && NoFresh(w[j + 1..i]) && w[i].Again?
    ensures w[i].payload == w[j].payload
  {
    assert MayFollow(w[..i], w[i]);
    assert w[..i][j + 1..] == w[j + 1..i];
    RunSince(w[..i], j);
  }

  lemma NoFreshBefore(w: seq<Wire>, j: nat, i: nat, k: nat)
    requires j < i <= k <= |w| && NoFresh(w[j + 1..k])
    ensures NoFresh(w[j + 1..i])
  {
    assert w[j + 1..i] == w[j + 1..k][..i - j - 1];
  }

  lemma GoodWire(t: State)
    requires Good(t)
    ensures WireOk(t.tx.wire)
  {
  }

  lemma {:induction false} BoundedRun(w: seq<Wire>, j: nat, k: nat)
    requires WireOk(w) && j < k <= |w| && w[j].Fresh? && NoFresh(w[j + 1..k])
    ensures Agains(w[j + 1..k]) <= MAX_RETRANSMIT
    decreases k
  {
    if j + 1 < k {
      assert w[j + 1..k][..k - j - 2] == w[j + 1..k - 1];
      BoundedRun(w, j, k - 1);
      assert MayFollow(w[..k - 1], w[k - 1]);
      assert w[..k - 1][j + 1..] == w[j + 1..k - 1];
      RunSince(w[..k - 1], j);
    }
  }

  // ---------------------------------------------------------------- silence

  /** Events in which nothing is heard from the vehicle. */
  predicate Silent(ev: Event) {
    ev.Tick? || ev.Pilot20ms? || ev.DcTick? || ev.SocketSender?
  }

  /** True time of the last tick since s, or s itself. */
  function TickFrom(s: nat, ts: seq<Timed>): nat {
    if ts == [] then s
    else if ts[|ts| - 1].ev.Tick? then ts[|ts| - 1].at
    else TickFrom(s, ts[..|ts| - 1])
  }

  /** Nothing is heard from true time s on, and the tick runs at least every d ms. */
  predicate SilentFrom(s: nat, ts: seq<Timed>, d: nat) {
    ts != [] ==>
      var p, last := ts[..|ts| - 1], ts[|ts| - 1];
      && SilentFrom(s, p, d) && Silent(last.ev)
      && (last.ev.Tick? ==> && last.ev.e.now == Millis(last.at)
                            && TickFrom(s, p) <= last.at <= TickFrom(s, p) + d)
  }

  /** The watchdog is stopped, disabled, or set to give up at its first expiry. */
  predicate Calm(w: Watchdog) {
    !w.active || w.timeout == 0 || (w.maxRetries == 1 && w.retries == 0)
  }

  /** The session is over; with a calm watchdog the connection is closed as well. */
  predicate Over(w: Watchdog, t: State) {
    Ended(t) && (Calm(w) ==> t.tx.tcp == Closed)
  }

  lemma OverStays(w: Watchdog, t: State, ev: Event)
    requires Over(w, t) && Silent(ev)
    ensures Over(w, Step(t, ev)) && Step(t, ev).tx.tcp == t.tx.tcp
  {
    hide EnableOutput, Drive, RampTick, ResetSession;
    if ev.Tick? {
      InactiveNeverExpires(t.wd, ev.e.now);
      WatchdogStageRests(t, ev.e);
    }
  }

  /** An event without a tick leaves the transport and the dialogue alone. */
  lemma NoTickNoChange(t: State, ev: Event)
    requires Silent(ev) && !ev.Tick?
    ensures var r := Step(t, ev);
            && r.tx == t.tx.(socket := r.tx.socket) && r.wd == t.wd && r.lastActivity == t.lastActivity
  {
    hide CpCheck, RampTick, TcpTick, OnSegment, SocketPayload, TransportReset;
    if ev.Pilot20ms? {
      PilotLeavesTransport(t, ev.connected, ev.openBefore);
    }
  }

  lemma PilotLeavesTransport(t: State, c: bool, openBefore: bool)
    ensures var r := CpCheck(t, c, openBefore);
            r.tx == t.tx && r.wd == t.wd && r.lastActivity == t.lastActivity
  {
    hide EnableOutput, Drive;
  }

  lemma RetryPending(t: State, now: u32)
    ensures RetryDue(t, now) ==> t.tx.awaiting
  {
  }

  lemma CalmGivesUp(w: Watchdog, now: u32)
    requires Calm(w) && Expired(w, now)
    ensures Check(w, now).1 == Fatal
  {
  }

  /** One tick of an established connection either ends the session or changes the sender only. */
  lemma TickOrOver(t: State, e: Env)
    requires t.tx.tcp == Established && TcpSender.Sound(t.tx)
    ensures var r := TcpTick(t, e);
            || Over(t.wd, r)
            || (&& !IdleDue(t, e.now) && (RetryDue(t, e.now) ==> t.tx.attempts < MAX_RETRANSMIT)
                && r.wd == t.wd && r.lastActivity == t.lastActivity
                && (RetryDue(t, e.now) ==>
                      r.tx == t.tx.(attempts := t.tx.attempts + 1, wire := r.tx.wire, lastTx := e.now))
                && (!RetryDue(t, e.now) ==> r.tx == t.tx)
                && TcpSender.Sound(r.tx))
  {
    hide TcpTick, Retransmit, Expired, Calm, RetryDue, Check;
    TickExactly(t, e);
    if Calm(t.wd) && Expired(t.wd, e.now) {
      CalmGivesUp(t.wd, e.now);
    }
    RetryPending(t, e.now);
    if RetryDue(t, e.now) && t.tx.attempts < MAX_RETRANSMIT {
      RetrySound(t.tx, e.now);
    }
  }

  /** n retransmission periods, each noticed up to d ms late. */
  function Periods(n: nat, d: nat): nat {
    if n == 0 then 0 else Periods(n - 1, d) + RETRANSMIT_TIMEOUT_MS + d
  }

  lemma ThreePeriods(n: nat, d: nat)
    requires n <= 3
    ensures Periods(n, d) <= 3 * (RETRANSMIT_TIMEOUT_MS + d)
  {
    assert Periods(3, d) == Periods(2, d) + RETRANSMIT_TIMEOUT_MS + d;
    assert Periods(2, d) == Periods(1, d) + RETRANSMIT_TIMEOUT_MS + d;
  }

  /** A payload first sent at s, n retransmissions later last sent at a, not overdue at the last tick. */
  predicate PendingSince(t: State, s: nat, a: nat, tick: nat, d: nat) {
    && t.tx.tcp == Established && t.tx.awaiting && t.tx.lastTx == Millis(a)
    && a <= tick <= a + RETRANSMIT_TIMEOUT_MS
    && a <= s + Periods(t.tx.attempts, d)
    && TcpSender.Sound(t.tx)
  }

  lemma PendingTick(t: State, s: nat, a: nat, tick: nat, d: nat, e: Env, at: nat) returns (b: nat)
    requires PendingSince(t, s, a, tick, d) && e.now == Millis(at) && tick <= at <= tick + d
    requires RETRANSMIT_TIMEOUT_MS + d < TWO32
    ensures var r := TcpTick(t, e);
            Over(t.wd, r) || (PendingSince(r, s, b, at, d) && r.wd == t.wd)
  {
    hide TcpTick, TcpSender.Sound, Over, Periods;
    ElapsedExact(a, at);
    PendingNotEmpty(t.tx);
    TickOrOver(t, e);
    b := if RetryDue(t, e.now) then at else a;
    NextPeriod(t.tx.attempts, d);
  }

  lemma NextPeriod(n: nat, d: nat)
    ensures Periods(n + 1, d) == Periods(n, d) + RETRANSMIT_TIMEOUT_MS + d
  {
  }

  lemma PendingNotEmpty(x: Sender)
    requires TcpSender.Sound(x)
    ensures x.awaiting <==> x.last != []
    ensures x.attempts <= MAX_RETRANSMIT
  {
  }

  lemma {:induction false} SilencePending(t0: State, s: nat, ts: seq<Timed>, d: nat) returns (a: nat)
    requires PendingSince(t0, s, s, s, d) && SilentFrom(s, ts, d)
    requires RETRANSMIT_TIMEOUT_MS + d < TWO32
    ensures var t := After(t0, ts);
            Over(t0.wd, t) || (PendingSince(t, s, a, TickFrom(s, ts), d) && t.wd == t0.wd)
  {
    if ts == [] {
      a := s;
    } else {
      var p, last := ts[..|ts| - 1], ts[|ts| - 1];
      a := SilencePending(t0, s, p, d);
      var t := After(t0, p);
      hide Step, TcpTick, PendingSince;
      if Over(t0.wd, t) {
        OverStays(t0.wd, t, last.ev);
      } else if last.ev.Tick? {
        a := PendingTick(t, s, a, TickFrom(s, p), d, last.ev.e, last.at);
        TickIsStep(t, last.ev.e);
      } else {
        NoTickNoChange(t, last.ev);
        PendingCarries(t, Step(t, last.ev), s, a, TickFrom(s, p), d);
      }
    }
  }

  lemma TickIsStep(t: State, e: Env)
    ensures Step(t, Tick(e)) == TcpTick(t, e)
  {
    hide TcpTick;
  }

  lemma PendingCarries(t: State, r: State, s: nat, a: nat, tick: nat, d: nat)
    requires PendingSince(t, s, a, tick, d) && r.tx == t.tx.(socket := r.tx.socket)
    ensures PendingSince(r, s, a, tick, d)
  {
  }

  /** A payload sent at time s and met by silence: at the first tick later than 4000 + 3d ms after s, all
      four transmissions are through and the session is over, the connection closed with it unless an
      ISO watchdog that does not give up expired first. */
  lemma SilenceEndsPending(t0: State, s: nat, ts: seq<Timed>, d: nat)
    requires t0.tx.tcp == Established && TcpSender.Sound(t0.tx) && t0.tx.awaiting && t0.tx.lastTx == Millis(s)
    requires SilentFrom(s, ts, d) && RETRANSMIT_TIMEOUT_MS + d < TWO32
    requires TickFrom(s, ts) > s + 4 * RETRANSMIT_TIMEOUT_MS + 3 * d
    ensures Over(t0.wd, After(t0, ts))
  {
    hide After, SilentFrom, Over, Periods, TcpSender.Sound;
    var a := SilencePending(t0, s, ts, d);
    var t := After(t0, ts);
    if !Over(t0.wd, t) {
      PendingNotEmpty(t.tx);
      ThreePeriods(t.tx.attempts, d);
    }
  }

  /** An established connection last active at time b, with nothing pending, is over at the first tick
      more than five seconds later. */
  lemma {:induction false} SilenceEndsIdle(t0: State, b: nat, s: nat, ts: seq<Timed>, d: nat)
    requires t0.tx.tcp == Established && TcpSender.Sound(t0.tx)
    requires t0.lastActivity == Millis(b) != 0 && b <= s && SilentFrom(s, ts, d)
    requires TickFrom(s, ts) < b + TWO32
    ensures var t := After(t0, ts);
            || Over(t0.wd, t)
            || (&& t.tx.tcp == Established && TcpSender.Sound(t.tx)
                && t.lastActivity == t0.lastActivity && t.wd == t0.wd
                && (TickFrom(s, ts) == s || TickFrom(s, ts) <= b + IDLE_TIMEOUT_MS))
    ensures TickFrom(s, ts) > s && TickFrom(s, ts) > b + IDLE_TIMEOUT_MS ==> Over(t0.wd, After(t0, ts))
  {
    if ts != [] {
      var p, last := ts[..|ts| - 1], ts[|ts| - 1];
      TicksAdvance(s, p, d);
      SilenceEndsIdle(t0, b, s, p, d);
      var t := After(t0, p);
      hide Step, TcpTick, TcpSender.Sound;
      if Over(t0.wd, t) {
        OverStays(t0.wd, t, last.ev);
      } else if last.ev.Tick? {
        ElapsedExact(b, last.at);
        TickOrOver(t, last.ev.e);
        TickIsStep(t, last.ev.e);
      } else {
        NoTickNoChange(t, last.ev);
        SocketSound(t.tx, Step(t, last.ev).tx.socket);
      }
    }
  }

  lemma {:induction false} TicksAdvance(s: nat, ts: seq<Timed>, d: nat)
    requires SilentFrom(s, ts, d)
    ensures TickFrom(s, ts) >= s
  {
    if ts != [] {
      TicksAdvance(s, ts[..|ts| - 1], d);
    }
  }

  lemma SocketSound(x: Sender, on: bool)
    requires TcpSender.Sound(x)
    ensures TcpSender.Sound(x.(socket := on))
  {
  }

  /** The other outcome: when a watchdog that does not give up expires at a tick before the connection is
      due, the session is over but the connection stays open, and no amount of silence closes it. */
  lemma {:induction false} ExpiryStrandsConnection(t: State, e: Env, s: nat, ts: seq<Timed>, d: nat)
    requires t.tx.tcp == Established && Check(t.wd, e.now).1 == Timeout
    requires !IdleDue(t, e.now) && (RetryDue(t, e.now) ==> t.tx.attempts < MAX_RETRANSMIT)
    requires SilentFrom(s, ts, d)
    ensures var r := After(TcpTick(t, e), ts); r.tx.tcp == Established && Over(t.wd, r)
  {
    if ts == [] {
      hide TcpTick;
      TickExactly(t, e);
    } else {
      hide TcpTick, Step, Over;
      var p := ts[..|ts| - 1];
      ExpiryStrandsConnection(t, e, s, p, d);
      OverStays(t.wd, After(TcpTick(t, e), p), ts[|ts| - 1].ev);
    }
  }
}
