/** Matching does not get stuck: with nothing heard from the vehicle the station gives up in bounded time and
    starts over with a new key. The clock does not wrap within the bound. */
module SlacRecovery {
  import opened Bytes
  import opened Slac
  import opened SlacSafety

  /** States in which the station waits for the vehicle against a timer. */
  predicate Waiting(m: Modem) {
    m == MnbcSound || m == AttenCharInd || m == AttenCharRsp
  }

  /** True end of the running timer. */
  function Expiry(s: State): nat {
    match s.modem
    case MnbcSound => s.soundsTimer + s.soundWindow
    case AttenCharInd => s.indTimer + RSP_TIMEOUT_MS
    case AttenCharRsp => s.matchTimer + s.matchWindow
    case _ => 0
  }

  /** Reports still to be sent. */
  function Left(s: State): nat {
    match s.modem
    case MnbcSound => 3
    case AttenCharInd => if s.attenRetries < 3 then 3 - s.attenRetries else 0
    case _ => 0
  }

  /** Rounds of reporting n reports take, each noticed up to d late. */
  function Rounds(n: nat, d: nat): nat {
    if n == 0 then 0 else Rounds(n - 1, d) + RSP_TIMEOUT_MS + d
  }

  /** When the station must have given up, with ticks at most d ms apart. */
  function Deadline(s: State, d: nat): nat {
    Expiry(s) + d + Rounds(Left(s), d)
  }

  /** Nothing heard, pilot unchanged. */
  predicate Quiet(s: State, i: Input) {
    i.burst == [] && i.connected == s.lastConnected
  }

  lemma QuietHead(s: State, i: Input)
    requires Shaped(s) && Waiting(s.modem) && Quiet(s, i)
    ensures Tick(s, i) == Timers(s, i.now)
  {
    hide Timers;
    assert PilotEdge(s, i.connected) == s;
    assert Poll(s, i) == s;
  }

  lemma NextRound(n: nat, d: nat)
    ensures Rounds(n + 1, d) == Rounds(n, d) + RSP_TIMEOUT_MS + d
  {
  }

  /** A tick before the timer's end changes nothing. */
  lemma EarlyTimers(s: State, now: u32)
    requires Ok(s) && Waiting(s.modem) && now <= Expiry(s) < TWO32
    ensures Timers(s, now) == s
  {
    hide TraceOf, Uniform, IndFrame, Sum;
    Undue(s, now);
  }

  lemma Undue(s: State, now: u32)
    requires now <= Expiry(s) < TWO32
    ensures s.modem == MnbcSound ==> !Due(s.soundsTimer, s.soundWindow, now)
    ensures s.modem == AttenCharInd ==> !Due(s.indTimer, RSP_TIMEOUT_MS, now)
    ensures s.modem == AttenCharRsp ==> !Due(s.matchTimer, s.matchWindow, now)
  {
  }

  /** Sending a report or giving up, and nothing else. */
  predicate Reacts(s: State, r: State, now: u32)
    requires Shaped(s)
  {
    if Left(s) > 0 then r == Transmit(s, now)
    else r.modem == SetKeyReq && r.log == s.log && r.lastConnected == s.lastConnected
  }

  lemma LateSound(s: State, now: u32)
    requires Ok(s) && s.modem == MnbcSound && Expiry(s) < now && now + RSP_TIMEOUT_MS < TWO32
    ensures Reacts(s, Timers(s, now), now)
  {
    hide TraceOf, Uniform, IndFrame, Staged, Log;
    assert Due(s.soundsTimer, s.soundWindow, now);
    assert SoundStage(s, now) == Transmit(s, now);
  }

  lemma LateReport(s: State, now: u32)
    requires Ok(s) && s.modem == AttenCharInd && Expiry(s) < now && now + RSP_TIMEOUT_MS < TWO32
    ensures Reacts(s, Timers(s, now), now)
  {
    hide TraceOf, Uniform, IndFrame, Averaged, Log;
    assert Due(s.indTimer, RSP_TIMEOUT_MS, now);
  }

  lemma LateMatch(s: State, now: u32)
    requires Ok(s) && s.modem == AttenCharRsp && Expiry(s) < now
    ensures Reacts(s, Timers(s, now), now)
  {
    hide TraceOf, Uniform, IndFrame, Staged, Log;
    assert Due(s.matchTimer, s.matchWindow, now);
  }

  /** A tick after it sends the next report while one is left, and else gives up at once. */
  lemma LateTimers(s: State, now: u32)
    requires Ok(s) && Waiting(s.modem) && Expiry(s) < now && now + RSP_TIMEOUT_MS < TWO32
    ensures Reacts(s, Timers(s, now), now)
  {
    hide Timers, Reacts, Expiry, Ok;
    match s.modem
    case MnbcSound => LateSound(s, now);
    case AttenCharInd => LateReport(s, now);
    case AttenCharRsp => LateMatch(s, now);
  }

  /** From s the station has given up at clock `at`, in time and after exactly three reports. */
  predicate GaveUp(s: State, r: State, at: nat, d: nat) {
    && r.modem == SetKeyReq && at <= Deadline(s, d)
    && (s.modem != AttenCharRsp ==> |TraceOf(r.log).inds| == 3)
  }

  /** From s the station still waits at clock `at`, no longer than s would. */
  predicate Still(s: State, r: State, at: nat, d: nat) {
    && Ok(r) && Waiting(r.modem) && r.lastConnected == s.lastConnected
    && at <= Expiry(r) && Deadline(r, d) <= Deadline(s, d)
    && (s.modem == AttenCharRsp <==> r.modem == AttenCharRsp)
  }

  /** One quiet tick, the previous one not past the timer's end. */
  lemma QuietTick(s: State, i: Input, last: nat, d: nat)
    requires Ok(s) && Waiting(s.modem) && Quiet(s, i)
    requires last <= Expiry(s) && last <= i.now <= last + d
    requires Deadline(s, d) + RSP_TIMEOUT_MS < TWO32
    ensures var r := Tick(s, i); GaveUp(s, r, i.now, d) || Still(s, r, i.now, d)
  {
    hide Timers, Transmit, TraceOf, Uniform, IndFrame, Averaged, Quiet;
    QuietHead(s, i);
    if i.now <= Expiry(s) {
      EarlyTimers(s, i.now);
    } else {
      LateTimers(s, i.now);
      if Left(s) > 0 {
        TransmitOk(s, i.now);
        NextRound(Left(s) - 1, d);
        TransmitKeepsPilot(s, i.now);
      }
    }
  }

  lemma TransmitKeepsPilot(s: State, now: u32)
    requires Shaped(s)
    ensures Transmit(s, now).lastConnected == s.lastConnected
  {
  }

  /** Clock of the last tick, or the starting point. */
  function ClockAfter(last: nat, ins: seq<Input>): nat {
    if ins == [] then last else ins[|ins| - 1].now
  }

  /** Quiet ticks at most d ms apart, the first counted from `last`. */
  predicate QuietSpell(s: State, ins: seq<Input>, last: nat, d: nat) {
    ins != [] ==>
      var p, i := ins[..|ins| - 1], ins[|ins| - 1];
      && QuietSpell(s, p, last, d) && Quiet(s, i)
      && ClockAfter(last, p) <= i.now <= ClockAfter(last, p) + d
  }

  /** Some way into a quiet spell the station has given up, in time; or at its end it still waits. */
  lemma {:induction false} Progress(s: State, ins: seq<Input>, last: nat, d: nat) returns (q: seq<Input>)
    requires Ok(s) && Waiting(s.modem) && last <= Expiry(s) && QuietSpell(s, ins, last, d)
    requires Deadline(s, d) + RSP_TIMEOUT_MS < TWO32
    ensures q <= ins
    ensures || (q != [] && GaveUp(s, Run(s, q), ClockAfter(last, q), d))
            || (q == ins && Still(s, Run(s, q), ClockAfter(last, q), d))
  {
    q := [];
    if ins != [] {
      var p, i := ins[..|ins| - 1], ins[|ins| - 1];
      hide Tick, Ok, Deadline, Expiry, Quiet, Run, GaveUp, Still, ClockAfter;
      q := Progress(s, p, last, d);
      if q == p && Still(s, Run(s, p), ClockAfter(last, p), d) {
        StillGoesOn(s, Run(s, p), ClockAfter(last, p), i, d);
        RunStep(s, ins);
        LastClock(last, ins);
        q := ins;
      }
    }
  }

  lemma LastClock(last: nat, ins: seq<Input>)
    requires ins != []
    ensures ClockAfter(last, ins) == ins[|ins| - 1].now
  {
  }

  lemma StillGoesOn(s: State, t: State, at: nat, i: Input, d: nat)
    requires Still(s, t, at, d) && Quiet(s, i) && at <= i.now <= at + d
    requires Deadline(s, d) + RSP_TIMEOUT_MS < TWO32
    ensures Shaped(t)
    ensures var r := Tick(t, i); GaveUp(s, r, i.now, d) || Still(s, r, i.now, d)
  {
    hide Tick, Uniform, Staged, Deadline, Expiry;
    SameQuiet(s, t, i);
    QuietTick(t, i, at, d);
  }

  lemma SameQuiet(s: State, t: State, i: Input)
    requires t.lastConnected == s.lastConnected && Quiet(s, i)
    ensures Quiet(t, i)
  {
  }

  lemma RunStep(s: State, ins: seq<Input>)
    requires Shaped(s) && ins != []
    ensures Run(s, ins) == Tick(Run(s, ins[..|ins| - 1]), ins[|ins| - 1])
  {
    hide Tick;
  }

  lemma StillIsEarly(s: State, r: State, at: nat, d: nat)
    requires Still(s, r, at, d)
    ensures at + d <= Deadline(s, d)
  {
    hide Ok;
  }

  /** A long enough quiet spell ends the waiting. */
  lemma Recovers(s: State, ins: seq<Input>, last: nat, d: nat) returns (k: nat)
    requires Ok(s) && Waiting(s.modem) && last <= Expiry(s) && QuietSpell(s, ins, last, d)
    requires Deadline(s, d) + RSP_TIMEOUT_MS < TWO32
    requires ins != [] && ins[|ins| - 1].now + d > Deadline(s, d)
    ensures 0 < k <= |ins| && GaveUp(s, Run(s, ins[..k]), ins[k - 1].now, d)
  {
    hide Staged, Uniform, Deadline, Expiry, Run, GaveUp, Still, ClockAfter, QuietSpell;
    var q := Progress(s, ins, last, d);
    LastClock(last, ins);
    if Still(s, Run(s, q), ClockAfter(last, q), d) && q == ins {
      StillIsEarly(s, Run(s, q), ClockAfter(last, q), d);
    }
    k := |q|;
    assert ins[..k] == q;
    LastClock(last, q);
  }

  /** What a station that began sounding at S owes. */
  lemma SoundingDeadline(s: State, d: nat)
    requires s.modem == MnbcSound
    ensures Deadline(s, d) == s.soundsTimer + s.soundWindow + 1500 + 4 * d
  {
    NextRound(2, d);
    NextRound(1, d);
    NextRound(0, d);
  }

  lemma MatchDeadline(s: State, d: nat)
    requires s.modem == AttenCharRsp
    ensures Deadline(s, d) == s.matchTimer + s.matchWindow + d
  {
  }

  /** What a station that sent its report c at time t owes. */
  lemma ReportDeadline(s: State, d: nat)
    requires s.modem == AttenCharInd && 1 <= s.attenRetries <= 3
    ensures Deadline(s, d) == s.indTimer + (4 - s.attenRetries) * (RSP_TIMEOUT_MS + d)
  {
    NextRound(1, d);
    NextRound(0, d);
  }

  // ---------------------------------------------------------------- a pass is never late

  lemma SoundStageNotLate(s: State, now: u32)
    requires Shaped(s)
    ensures var r := SoundStage(s, now);
            && (r.modem == MnbcSound && Expiry(r) < TWO32 ==> now <= Expiry(r))
            && (r.modem == AttenCharRsp ==> r == s)
  {
    hide IndFrame, TraceOf, Uniform;
  }

  lemma IndStageNotLate(s: State, now: u32)
    requires Shaped(s)
    ensures var r := IndStage(s, now);
            && (r.modem == AttenCharInd && Expiry(r) < TWO32 ==> now <= Expiry(r))
            && (r.modem == MnbcSound || r.modem == AttenCharRsp ==> r == s)
  {
    hide IndFrame, TraceOf, Uniform;
  }

  lemma LateStagesNotLate(s: State, now: u32)
    requires Shaped(s)
    ensures var r := RotateStage(SearchStage(MatchStage(s, now), now));
            && (r.modem == AttenCharRsp && Expiry(r) < TWO32 ==> now <= Expiry(r))
            && (Waiting(r.modem) ==> r == s)
  {
    hide TraceOf, Uniform;
  }

  /** Whatever a pass handled, it does not leave a timer running that is already over. */
  lemma PassNotLate(s: State, i: Input)
    requires Shaped(s)
    ensures var r := Tick(s, i); Waiting(r.modem) && Expiry(r) < TWO32 ==> i.now <= Expiry(r)
  {
    hide SoundStage, IndStage, MatchStage, SearchStage, RotateStage, Poll, PilotEdge, Expiry;
    var p := Poll(PilotEdge(s, i.connected), i);
    SoundStageNotLate(p, i.now);
    IndStageNotLate(SoundStage(p, i.now), i.now);
    LateStagesNotLate(IndStage(SoundStage(p, i.now), i.now), i.now);
  }

  lemma NoPasses(s: State)
    requires Shaped(s)
    ensures Run(s, []) == s
  {
  }

  lemma PassesNotLate(s: State, past: seq<Input>)
    requires Shaped(s) && past != []
    ensures var r := Run(s, past); Waiting(r.modem) && Expiry(r) < TWO32 ==> past[|past| - 1].now <= Expiry(r)
  {
    hide Tick, Expiry, Run, Waiting;
    RunStep(s, past);
    PassNotLate(Run(s, past[..|past| - 1]), past[|past| - 1]);
  }

  /** When a station that did not wait waits after these passes, the last of them is not past the running timer. */
  lemma WaitingSince(s: State, past: seq<Input>)
    requires Shaped(s) && !Waiting(s.modem)
    requires Waiting(Run(s, past).modem) && Expiry(Run(s, past)) < TWO32
    ensures past != [] && past[|past| - 1].now <= Expiry(Run(s, past))
  {
    hide Expiry, Run, Waiting;
    NoPasses(s);
    if past != [] {
      PassesNotLate(s, past);
    }
  }

  lemma Booted(myMac: Data, past: seq<Input>)
    requires |myMac| == 6
    ensures !Waiting(Initial(myMac).modem) && Ok(Run(Initial(myMac), past))
  {
    hide Run, Ok;
    InitialOk(myMac);
    RunOk(Initial(myMac), past);
  }

  /** Silence from the last of the passes `past` on. */
  predicate SilentAfter(s: State, past: seq<Input>, ins: seq<Input>, d: nat) {
    past != [] && QuietSpell(s, ins, past[|past| - 1].now, d)
  }

  /** Bounded recovery from sounding: after any run that ends in sounding, wherever in the round, a station
      that hears nothing more asks for a new key no later than its sound window + 1500 + 4d ms after the start
      of sounding, having sent exactly three reports. */
  lemma SoundingRecovers(myMac: Data, past: seq<Input>, ins: seq<Input>, d: nat) returns (k: nat)
    requires |myMac| == 6
    requires var s := Run(Initial(myMac), past);
             && s.modem == MnbcSound && SilentAfter(s, past, ins, d)
             && s.soundsTimer + s.soundWindow + 4 * (RSP_TIMEOUT_MS + d) < TWO32
             && ins != [] && ins[|ins| - 1].now > s.soundsTimer + s.soundWindow + 1500 + 3 * d
    ensures var s := Run(Initial(myMac), past);
            && 0 < k <= |ins|
            && Run(s, ins[..k]).modem == SetKeyReq
            && ins[k - 1].now <= s.soundsTimer + s.soundWindow + 1500 + 4 * d
            && |TraceOf(Run(s, ins[..k]).log).inds| == 3
  {
    hide Run, Staged, Uniform, TraceOf, Deadline, QuietSpell;
    Booted(myMac, past);
    WaitingSince(Initial(myMac), past);
    var s := Run(Initial(myMac), past);
    SoundingDeadline(s, d);
    k := Recovers(s, ins, past[|past| - 1].now, d);
  }

  /** Bounded recovery while a report is out: after any run, each report still to be sent and the wait after
      the last take 500 + d ms, and exactly three reports are sent in all. */
  lemma ReportingRecovers(myMac: Data, past: seq<Input>, ins: seq<Input>, d: nat) returns (k: nat)
    requires |myMac| == 6
    requires var s := Run(Initial(myMac), past);
             && s.modem == AttenCharInd && SilentAfter(s, past, ins, d)
             && s.indTimer + 4 * (RSP_TIMEOUT_MS + d) < TWO32
             && ins != [] && ins[|ins| - 1].now + d > s.indTimer + (4 - s.attenRetries) * (RSP_TIMEOUT_MS + d)
    ensures var s := Run(Initial(myMac), past);
            && 0 < k <= |ins|
            && Run(s, ins[..k]).modem == SetKeyReq
            && ins[k - 1].now <= s.indTimer + (4 - s.attenRetries) * (RSP_TIMEOUT_MS + d)
            && |TraceOf(Run(s, ins[..k]).log).inds| == 3
  {
    hide Run, Uniform, TraceOf, Deadline, QuietSpell;
    Booted(myMac, past);
    WaitingSince(Initial(myMac), past);
    var s := Run(Initial(myMac), past);
    ReportDeadline(s, d);
    AtMostThree(s.attenRetries, d);
    hide Staged;
    k := Recovers(s, ins, past[|past| - 1].now, d);
  }

  lemma AtMostThree(c: byte, d: nat)
    requires 1 <= c <= 3
    ensures (4 - c) * (RSP_TIMEOUT_MS + d) <= 3 * (RSP_TIMEOUT_MS + d)
  {
  }

  /** Bounded recovery while waiting for MATCH.REQ: after any run, within the match window + d of the accepted
      response. */
  lemma MatchRecovers(myMac: Data, past: seq<Input>, ins: seq<Input>, d: nat) returns (k: nat)
    requires |myMac| == 6
    requires var s := Run(Initial(myMac), past);
             && s.modem == AttenCharRsp && SilentAfter(s, past, ins, d)
             && s.matchTimer + s.matchWindow + d + RSP_TIMEOUT_MS < TWO32
             && ins != [] && ins[|ins| - 1].now > s.matchTimer + s.matchWindow
    ensures var s := Run(Initial(myMac), past);
            && 0 < k <= |ins|
            && Run(s, ins[..k]).modem == SetKeyReq
            && ins[k - 1].now <= s.matchTimer + s.matchWindow + d
  {
    hide Run, Staged, Uniform, TraceOf, Deadline, QuietSpell;
    Booted(myMac, past);
    WaitingSince(Initial(myMac), past);
    var s := Run(Initial(myMac), past);
    MatchDeadline(s, d);
    k := Recovers(s, ins, past[|past| - 1].now, d);
  }
}
