/** The ISO 15118-2 watchdog over whole runs against an unbounded clock. */
module HlcDeadline {
  import opened Bytes
  import opened IsoWatchdog
  import opened TcpSender
  import opened Hlc
  import opened TcpLink
  import opened HlcSafety

  /** An event and the true time, in ms since power-up, at which it is handled. */
  datatype Timed = Timed(ev: Event, at: nat)

  function Events(ts: seq<Timed>): seq<Event> {
    if ts == [] then [] else Events(ts[..|ts| - 1]) + [ts[|ts| - 1].ev]
  }

  function After(b: State, ts: seq<Timed>): State {
    if ts == [] then b else Step(After(b, ts[..|ts| - 1]), ts[|ts| - 1].ev)
  }

  lemma {:induction false} AfterIsRun(b: State, ts: seq<Timed>)
    ensures After(b, ts) == Run(b, Events(ts))
  {
    if ts != [] {
      AfterIsRun(b, ts[..|ts| - 1]);
      var es := Events(ts);
      assert es[..|es| - 1] == Events(ts[..|ts| - 1]);
    }
  }

  function Now(ts: seq<Timed>): nat {
    if ts == [] then 0 else ts[|ts| - 1].at
  }

  /** True time of the last timer tick; zero before the first. */
  function LastTick(ts: seq<Timed>): nat {
    if ts == [] then 0
    else if ts[|ts| - 1].ev.Tick? then ts[|ts| - 1].at
    else LastTick(ts[..|ts| - 1])
  }

  /** True time of the last event that put a watchdog start on record. */
  function LastArmed(b: State, ts: seq<Timed>): nat {
    if ts == [] then 0
    else if TallyOf(After(b, ts).log).arms > TallyOf(After(b, ts[..|ts| - 1]).log).arms
    then ts[|ts| - 1].at
    else LastArmed(b, ts[..|ts| - 1])
  }

  /** Time does not run backwards, every reading in an event is the wrapped time of the event, every
      offered ISO schema can be answered, and ticks are less than 2^31 ms apart. */
  ghost predicate Regular(ts: seq<Timed>) {
    ts != [] ==>
      var p, last := ts[..|ts| - 1], ts[|ts| - 1];
      && Regular(p)
      && Now(p) <= last.at
      && EventClocked(last.ev, Millis(last.at)) && EventEncodable(last.ev)
      && (last.ev.Tick? ==> last.at - LastTick(p) < TWO31)
  }

  lemma {:induction false} AfterGood(b: State, ts: seq<Timed>)
    requires PoweredUp(b) && Regular(ts)
    ensures var t := After(b, ts);
            && Good(t) && Watched(t)
            && t.wd.timeout == b.wd.timeout && t.wd.maxRetries == b.wd.maxRetries && t.wd.retries == 0
    ensures LastTick(ts) <= Now(ts) && LastArmed(b, ts) <= Now(ts)
  {
    if ts != [] {
      var p, last := ts[..|ts| - 1], ts[|ts| - 1];
      hide Good, Watched, Step, EventClocked, EventEncodable;
      AfterGood(b, p);
      StepGoodAt(After(b, p), last.ev, Millis(last.at));
    } else {
      assert Good(b) && Watched(b);
    }
  }

  lemma CloseStopsWatch(t: State, openBefore: bool)
    ensures !Close(t, openBefore).wd.active
  {
    hide ResetSession;
  }

  /** The transport stages leave the watchdog alone or, with a close, stop it. */
  lemma StagesWatch(t: State, e: Env)
    ensures RetryStage(t, e).wd == t.wd || !RetryStage(t, e).wd.active
    ensures IdleStage(t, e).wd == t.wd || !IdleStage(t, e).wd.active
  {
    hide Close, Retransmit;
    CloseStopsWatch(t, e.openBefore);
  }

  lemma CheckedWatch(t: State, e: Env)
    ensures var r := WatchdogStage(t, e); r.wd.active ==> r.wd == t.wd && !Expired(t.wd, e.now)
  {
    hide ResetSession, Expired;
  }

  /** A tick that finds the watchdog expired ends with it stopped; otherwise it leaves it alone. */
  lemma TickChecks(t: State, e: Env)
    ensures TcpTick(t, e).wd.active ==> TcpTick(t, e).wd == t.wd && !Expired(t.wd, e.now)
  {
    hide RetryStage, IdleStage, WatchdogStage, Expired;
    StagesWatch(t, e);
    StagesWatch(RetryStage(t, e), e);
    CheckedWatch(if t.tx.tcp == Established then IdleStage(RetryStage(t, e), e) else t, e);
  }

  /** The watchdog's register is the wrapped time of the last recorded start, and the last tick was
      not past the deadline. */
  lemma {:induction false} DeadlineKept(b: State, ts: seq<Timed>)
    requires PoweredUp(b) && Regular(ts) && 0 < b.wd.timeout <= TWO31
    ensures var t := After(b, ts);
            t.wd.active ==>
              && t.wd.start == Millis(LastArmed(b, ts))
              && LastTick(ts) <= LastArmed(b, ts) + b.wd.timeout
  {
    if ts != [] {
      var p, last := ts[..|ts| - 1], ts[|ts| - 1];
      DeadlineKept(b, p);
      AfterGood(b, p);
      var t := After(b, p);
      StepGoodAt(t, last.ev, Millis(last.at));
      var started := LastArmed(b, p);
      if last.ev.Tick? && Step(t, last.ev).wd.active {
        hide Good, Watched, TcpTick;
        TickChecks(t, last.ev.e);
        ExpiredExact(t.wd, started, last.at);
        assert last.at - started - t.wd.timeout <= last.at - LastTick(p);
      }
    }
  }

  /** ISO-2 energy deadline: at the end of every tick, an ISO-2 session past the handshake, and with
      it every ISO-2 session whose DC output is on, is at most the timeout past its last recorded
      watchdog start. */
  lemma EnergyDeadline(b: State, ts: seq<Timed>)
    requires PoweredUp(b) && Regular(ts) && 0 < b.wd.timeout <= TWO31
    requires ts != [] && ts[|ts| - 1].ev.Tick?
    ensures var t := After(b, ts);
            && (t.protocol == Iso2 && t.phase != ForAppProtocol ==>
                  t.wd.active && Now(ts) <= LastArmed(b, ts) + b.wd.timeout)
            && (t.protocol == Iso2 && t.dc.enabled ==> Now(ts) <= LastArmed(b, ts) + b.wd.timeout)
  {
    DeadlineKept(b, ts);
    AfterGood(b, ts);
  }

  // ---------------------------------------------------------------- the retry count

  /** The reset on every expiry clears the retry count, so in any run the verdict of a check is Fatal
      exactly when the watchdog has expired and was configured for a single retry. */
  lemma FatalExactly(b: State, es: seq<Event>, now: u32)
    requires PoweredUp(b)
    ensures var wd := Run(b, es).wd;
            Check(wd, now).1 == Fatal <==> Expired(wd, now) && b.wd.maxRetries == 1
  {
    hide Run, Good, Watched, EventEncodable, Expired, Check;
    RunGood(b, es);
    FirstRetry(Run(b, es).wd, now);
  }

  lemma FirstRetry(w: Watchdog, now: u32)
    requires w.retries == 0
    ensures Check(w, now).1 == Fatal <==> Expired(w, now) && w.maxRetries == 1
  {
    hide Expired;
  }

  /** So an expiry seen by a tick closes the connection as well as the session in that one case only. */
  lemma ExpiryClosesExactly(b: State, es: seq<Event>, e: Env)
    requires PoweredUp(b) && Expired(Run(b, es).wd, e.now)
    ensures var t := Run(b, es); var r := WatchdogStage(t, e);
            && r.phase == ForAppProtocol && !r.dc.enabled && !r.relay.cmd
            && (r.tx.tcp == Closed <==> b.wd.maxRetries == 1 || t.tx.tcp == Closed)
  {
    hide ResetSession, Expired, Run;
    FatalExactly(b, es, e.now);
  }

  // ---------------------------------------------------------------- losing the watch

  /** An offer handled from the end: the last schema acts on what the earlier ones left. */
  lemma {:induction false} HandshakeLast(t: State, apps: seq<App>, a: App, now: u32)
    ensures Handshake(t, apps + [a], now) == OneApp(Handshake(t, apps, now), a, now)
    decreases |apps|
  {
    hide OneApp;
    if apps == [] {
      assert (apps + [a])[1..] == [];
    } else {
      assert (apps + [a])[1..] == apps[1..] + [a];
      HandshakeLast(OneApp(t, apps[0], now), apps[1..], a, now);
    }
  }

  /** Some schema of kind s was answered. */
  predicate AnsweredSome(apps: seq<App>, s: Scheme) {
    exists k :: 0 <= k < |apps| && apps[k].scheme == s && apps[k].enc.Some?
  }

  /** The protocol named by the last recognised schema, or none. */
  function LastNamed(apps: seq<App>): Option<Protocol> {
    if apps == [] then None
    else match apps[|apps| - 1].scheme
      case DinScheme => Some(Din)
      case Iso2Scheme => Some(Iso2)
      case OtherScheme => LastNamed(apps[..|apps| - 1])
  }

  lemma {:induction false} HandshakeOutcome(t: State, apps: seq<App>, now: u32)
    requires t.phase == ForAppProtocol
    ensures var r := Handshake(t, apps, now);
            && r.protocol == (if LastNamed(apps).Some? then LastNamed(apps).value else t.protocol)
            && r.phase == (if AnsweredSome(apps, DinScheme) || AnsweredSome(apps, Iso2Scheme)
                           then ForSessionSetup else ForAppProtocol)
            && (r.wd.active <==> t.wd.active || AnsweredSome(apps, Iso2Scheme))
  {
    if apps != [] {
      var p, a := apps[..|apps| - 1], apps[|apps| - 1];
      assert apps == p + [a];
      HandshakeOutcome(t, p, now);
      HandshakeLast(t, p, a, now);
      AnsweredSplit(p, a, DinScheme);
      AnsweredSplit(p, a, Iso2Scheme);
      hide Answer, StartWatchdog, Handshake, AnsweredSome;
    }
  }

  lemma AnsweredSplit(p: seq<App>, a: App, s: Scheme)
    ensures AnsweredSome(p + [a], s) <==> AnsweredSome(p, s) || (a.scheme == s && a.enc.Some?)
  {
    var q := p + [a];
    assert forall k :: 0 <= k < |p| ==> q[k] == p[k];
    assert q[|p|] == a;
    if AnsweredSome(p, s) {
      var k :| 0 <= k < |p| && p[k].scheme == s && p[k].enc.Some?;
      assert q[k] == p[k];
    }
  }

  /** A handshake leaves an unwatched ISO session exactly when the last recognised schema is ISO, no
      ISO schema could be answered, and a DIN schema before it was. */
  lemma UnwatchedExactly(t: State, apps: seq<App>, now: u32)
    requires t.phase == ForAppProtocol && !t.wd.active
    ensures !Watched(Handshake(t, apps, now)) <==>
              && LastNamed(apps) == Some(Iso2)
              && !AnsweredSome(apps, Iso2Scheme) && AnsweredSome(apps, DinScheme)
  {
    HandshakeOutcome(t, apps, now);
    NamedIfAnswered(apps);
  }

  lemma {:induction false} NamedIfAnswered(apps: seq<App>)
    ensures AnsweredSome(apps, DinScheme) || AnsweredSome(apps, Iso2Scheme) ==> LastNamed(apps).Some?
  {
    if apps != [] {
      var p, a := apps[..|apps| - 1], apps[|apps| - 1];
      assert apps == p + [a];
      NamedIfAnswered(p);
      AnsweredSplit(p, a, DinScheme);
      AnsweredSplit(p, a, Iso2Scheme);
    }
  }
}
