/** What decides each step of a match: which message, which byte, how many answers and when. */
module SlacLink {
  import opened Bytes
  import opened Slac
  import opened SlacSafety
  import SlacRecovery

  // ---------------------------------------------------------------- ready or not

  /** No message of the burst ends a search: each is an answer or ignored. */
  predicate Harmless(burst: seq<Arrival>) {
    forall k :: 0 <= k < |burst| ==> LeavesSearch(burst[k].rx)
  }

  /** Neither a SLAC_PARAM.REQ nor a SET_KEY.CNF that reports success. */
  predicate LeavesSearch(rx: Buffer) {
    var mnt := MessageType(rx);
    mnt != 0x6064 && (mnt == 0x6009 ==> rx[19] != 1)
  }

  /** Number of GET_SW.CNF messages in a burst. */
  function Answers(burst: seq<Arrival>): nat {
    if burst == [] then 0
    else Answers(burst[..|burst| - 1]) + (if MessageType(burst[|burst| - 1].rx) == 0xA001 then 1 else 0)
  }

  function AnswersIn(ins: seq<Input>): nat {
    if ins == [] then 0 else AnswersIn(ins[..|ins| - 1]) + Answers(ins[|ins| - 1].burst)
  }

  /** A search begun at `since`, with so many answers counted. */
  predicate Searches(s: State, since: u32, answers: nat) {
    s.modem == WaitSw && s.searchTimer == since && s.modemsFound == answers % 256
  }

  lemma SearchMessage(s: State, rx: Buffer, n: nat, now: u32, since: u32, answers: nat)
    requires Shaped(s) && Searches(s, since, answers) && LeavesSearch(rx)
    ensures var r := OnMessage(s, rx, n, now);
            && Searches(r, since, answers + (if MessageType(rx) == 0xA001 then 1 else 0))
            && r.lastConnected == s.lastConnected
  {
    hide OnParamReq, OnStart, OnProfile, OnRsp, OnMatch, TraceOf, Uniform;
  }

  lemma {:induction false} SearchBurst(s: State, burst: seq<Arrival>, now: u32, since: u32, answers: nat)
    requires Shaped(s) && Searches(s, since, answers) && Harmless(burst)
    ensures var r := Arrivals(s, burst, now);
            Searches(r, since, answers + Answers(burst)) && r.lastConnected == s.lastConnected
  {
    hide OnMessage, Searches, LeavesSearch, Arrivals, Answers, MessageType;
    LastArrival(s, burst, now);
    if burst != [] {
      var p, last := burst[..|burst| - 1], burst[|burst| - 1];
      SearchBurst(s, p, now, since, answers);
      SearchMessage(Arrivals(s, p, now), last.rx, last.n, now, since, answers + Answers(p));
    }
  }

  lemma LastArrival(s: State, burst: seq<Arrival>, now: u32)
    requires Shaped(s)
    ensures burst == [] ==> Arrivals(s, burst, now) == s && Answers(burst) == 0
    ensures burst != [] ==>
              var p, last := burst[..|burst| - 1], burst[|burst| - 1];
              && Arrivals(s, burst, now) == OnMessage(Arrivals(s, p, now), last.rx, last.n, now)
              && Answers(burst) == Answers(p) + (if MessageType(last.rx) == 0xA001 then 1 else 0)
  {
    hide OnMessage, MessageType;
  }

  /** The pass meets no lost vehicle. */
  predicate NoEdge(s: State, i: Input) {
    i.connected || !s.lastConnected
  }

  lemma NoEdgeHead(s: State, i: Input)
    requires Shaped(s) && NoEdge(s, i)
    ensures PilotEdge(s, i.connected) == s.(lastConnected := i.connected)
  {
  }

  lemma SearchTimers(s: State, now: u32, since: u32, answers: nat)
    requires Shaped(s) && Searches(s, since, answers) && since + 1000 < TWO32
    ensures var r := Timers(s, now);
            if now <= since + 1000 then r == s
            else (r.modem == LinkReady <==> answers % 256 >= 2) && (r.modem == GetSwReq <==> answers % 256 < 2)
                 && r.log == s.log && r.lastConnected == s.lastConnected
  {
    hide TraceOf, Uniform;
  }

  /** Asking for the modems starts the search. */
  lemma AskPass(s: State, i: Input)
    requires Shaped(s) && s.modem == GetSwReq && NoEdge(s, i) && i.now + 1000 < TWO32
    ensures var r := Tick(s, i);
            Searches(r, i.now, 0) && r.log == s.log + [GetSwSent] && r.lastConnected == i.connected
  {
    hide Timers, TraceOf, Uniform;
    NoEdgeHead(s, i);
    var r := Poll(s.(lastConnected := i.connected), i);
    SearchTimers(r, i.now, i.now, 0);
  }

  lemma SearchPass(s: State, i: Input, since: u32, answers: nat)
    requires Shaped(s) && Searches(s, since, answers) && NoEdge(s, i) && Harmless(i.burst) && since + 1000 < TWO32
    ensures var r, n := Tick(s, i), answers + Answers(i.burst);
            if i.now <= since + 1000 then Searches(r, since, n) && r.lastConnected == i.connected
            else (r.modem == LinkReady <==> n % 256 >= 2) && (r.modem == GetSwReq <==> n % 256 < 2)
  {
    hide Timers, Arrivals, TraceOf, Uniform;
    NoEdgeHead(s, i);
    var t := s.(lastConnected := i.connected);
    SearchBurst(t, i.burst, i.now, since, answers);
    assert Poll(t, i) == Arrivals(t, i.burst, i.now);
    SearchTimers(Arrivals(t, i.burst, i.now), i.now, since, answers + Answers(i.burst));
  }

  /** Passes at most 1000 ms after `since` in which nothing ends the search. */
  predicate SearchSpell(s: State, ins: seq<Input>, since: u32)
    requires Shaped(s)
  {
    ins != [] ==>
      var p, i := ins[..|ins| - 1], ins[|ins| - 1];
      SearchSpell(s, p, since) && NoEdge(Run(s, p), i) && Harmless(i.burst) && i.now <= since + 1000
  }

  lemma {:induction false} SearchGoesOn(s: State, ins: seq<Input>, since: u32, answers: nat)
    requires Shaped(s) && Searches(s, since, answers) && SearchSpell(s, ins, since) && since + 1000 < TWO32
    ensures Searches(Run(s, ins), since, answers + AnswersIn(ins))
  {
    hide Run, Tick, Searches, Harmless, NoEdge, Answers, AnswersIn;
    LastPass(ins);
    if ins == [] {
      SlacRecovery.NoPasses(s);
    } else {
      var p, i := ins[..|ins| - 1], ins[|ins| - 1];
      SearchGoesOn(s, p, since, answers);
      SlacRecovery.RunStep(s, ins);
      SearchPass(Run(s, p), i, since, answers + AnswersIn(p));
    }
  }

  lemma LastPass(ins: seq<Input>)
    ensures AnswersIn(ins) == if ins == [] then 0 else AnswersIn(ins[..|ins| - 1]) + Answers(ins[|ins| - 1].burst)
  {
  }

  /** Asking and deciding, from any state that is to look for modems: the next pass sends the request. In the
      passes up to 1000 ms after it the station goes on waiting. The first pass later than that declares the link
      ready exactly when the answers heard since, modulo 256, are two or more, and else is to ask again. */
  lemma AskThenDecide(s: State, ask: Input, ins: seq<Input>, i: Input)
    requires Shaped(s) && s.modem == GetSwReq && NoEdge(s, ask) && ask.now + 1000 < TWO32
    requires SearchSpell(Tick(s, ask), ins, ask.now)
    requires var t := Run(Tick(s, ask), ins);
             NoEdge(t, i) && Harmless(i.burst) && i.now > ask.now + 1000
    ensures var t := Run(Tick(s, ask), ins); var r := Tick(t, i);
            var n := AnswersIn(ins) + Answers(i.burst);
            && t.modem == WaitSw
            && (r.modem == LinkReady <==> n % 256 >= 2)
            && (r.modem == GetSwReq <==> n % 256 < 2)
  {
    hide Tick, Run, Harmless, NoEdge, SearchSpell;
    AskPass(s, ask);
    SearchGoesOn(Tick(s, ask), ins, ask.now, 0);
    SearchPass(Run(Tick(s, ask), ins), i, ask.now, AnswersIn(ins));
    WaitsStill(Run(Tick(s, ask), ins), ask.now, AnswersIn(ins));
  }

  lemma WaitsStill(s: State, since: u32, answers: nat)
    requires Searches(s, since, answers)
    ensures s.modem == WaitSw
  {
  }

  // ---------------------------------------------------------------- what a match is decided by

  /** Back to waiting for a vehicle, a new key to be set. */
  predicate StartsOver(s: State) {
    s.modem == Configured && s.rotate
  }

  lemma FailStartsOver(s: State)
    requires Shaped(s)
    ensures StartsOver(Fail(s)) && Fail(s).log == s.log
  {
  }

  /** What a response to the report does: accepted, met with the same report again, or the end of the match. */
  predicate Responds(s: State, r: State, accepted: bool, now: u32) {
    var t := TraceOf(s.log);
    && (r.modem == AttenCharRsp <==> accepted)
    && (accepted ==> r.matchTimer == now && r.matchWindow == AtLeast(s.soundWindow + 1000, 2000)
                     && r.log == s.log + [RspOk(t.mac, t.runId)])
    && (!accepted && 0 < |t.inds| < 3 ==>
          r.modem == AttenCharInd && r.indTimer == now && r.log == s.log + [IndSent(t.inds[0])])
    && (!accepted && |t.inds| == 3 ==> StartsOver(r) && r.log == s.log)
  }

  lemma RspResponds(s: State, rx: Buffer, n: nat, now: u32)
    requires Ok(s) && s.modem == AttenCharInd && MessageType(rx) == 0x606F
    ensures var t := TraceOf(s.log);
            Responds(s, OnMessage(s, rx, n, now), rx[21..27] == t.mac && rx[27..35] == t.runId && rx[69] == 0, now)
  {
    hide TraceOf, Uniform, IndFrame, Averaged, Fail;
    FailStartsOver(s);
  }

  /** In every run an ATTEN_CHAR.RSP that meets a report is accepted exactly when it names the vehicle and run of
      the latest request and reports success. Otherwise the report is sent again, while fewer than three are
      out, and else the match starts over. */
  lemma ResponseExactly(myMac: Data, ins: seq<Input>, rx: Buffer, n: nat, now: u32)
    requires |myMac| == 6 && MessageType(rx) == 0x606F
    requires Run(Initial(myMac), ins).modem == AttenCharInd
    ensures var s := Run(Initial(myMac), ins); var t := TraceOf(s.log);
            && 1 <= |t.inds| <= 3
            && Responds(s, OnMessage(s, rx, n, now), rx[21..27] == t.mac && rx[27..35] == t.runId && rx[69] == 0, now)
  {
    hide Run, TraceOf, Uniform, IndFrame, Averaged, OnMessage, Responds;
    InitialOk(myMac);
    RunOk(Initial(myMac), ins);
    RspResponds(Run(Initial(myMac), ins), rx, n, now);
  }

  /** In every run a SLAC_MATCH.REQ that is awaited is accepted exactly when it names that vehicle and run and
      gives its field length as 62; otherwise the match starts over. */
  lemma MatchExactly(myMac: Data, ins: seq<Input>, rx: Buffer, n: nat, now: u32)
    requires |myMac| == 6 && MessageType(rx) == 0x607C
    requires Run(Initial(myMac), ins).modem == AttenCharRsp
    ensures var s := Run(Initial(myMac), ins); var t := TraceOf(s.log); var r := OnMessage(s, rx, n, now);
            var valid := rx[40..46] == t.mac && rx[69..77] == t.runId && rx[21] == 62 && rx[22] == 0;
            && (r.modem == GetSwReq <==> valid)
            && (valid ==> r.log == s.log + [MatchOk(t.mac, t.runId, s.nmk, s.nid)])
            && (!valid ==> StartsOver(r) && r.log == s.log)
  {
    hide Run, TraceOf, Uniform, Fail;
    InitialOk(myMac);
    RunOk(Initial(myMac), ins);
    FailStartsOver(Run(Initial(myMac), ins));
  }

  // ---------------------------------------------------------------- negotiation

  function Clamp(x: nat, lo: nat, hi: nat): nat
    requires lo <= hi
  {
    if x < lo then lo else if x > hi then hi else x
  }

  /** The sound count agreed on: the start message's, unless zero; else the request's. That of the request is
      read out of the run identifier, as its fifth byte. */
  function AgreedCount(req: Buffer, n: nat, start: Buffer, m: nat): nat {
    if m > 21 && start[21] != 0 then Clamp(start[21], 1, 20) else if n > 26 then Clamp(req[25], 1, 20) else 10
  }

  /** The timeout field agreed on, in units of 100 ms, zero standing for six; likewise the sixth byte. */
  function AgreedField(req: Buffer, n: nat, start: Buffer, m: nat): nat {
    if m > 22 && start[22] != 0 then start[22] else if n > 26 && req[26] != 0 then req[26] else 6
  }

  function AtLeast(x: nat, least: nat): nat {
    if x < least then least else x
  }

  lemma WindowsMean(field: byte)
    ensures field != 0 ==> SoundWindow(field) == AtLeast(100 * field, 200)
    ensures MatchWindow(SoundWindow(field)) == AtLeast(SoundWindow(field) + 1000, 2000)
  {
  }

  lemma RequestAgrees(s: State, req: Buffer, n: nat, now: u32)
    requires Shaped(s) && MessageType(req) == 0x6064
    ensures var r := OnMessage(s, req, n, now);
            && r.modem == SlacParamCnf && r.log == s.log + [ParamReq(req[6..12], req[21..29])]
            && r.pevMac == req[6..12] && r.runId == req[21..29] && r.myMac == s.myMac
            && r.count == (if n > 26 then Clamp(req[25], 1, 20) else 10)
            && r.timeoutField == (if n > 26 && req[26] != 0 then req[26] else 6)
            && r.nmk == s.nmk && r.nid == s.nid
  {
    hide TraceOf, Uniform, SoundWindow, MatchWindow;
  }

  lemma StartAgrees(s: State, start: Buffer, m: nat, now: u32)
    requires Shaped(s) && MessageType(start) == 0x606A && s.modem == SlacParamCnf
    ensures var r := OnMessage(s, start, m, now);
            && r.modem == MnbcSound && r.soundsTimer == now && r.log == s.log + [StartAtten]
            && r.pevMac == s.pevMac && r.runId == s.runId && r.myMac == s.myMac
            && r.count == (if m > 21 && start[21] != 0 then Clamp(start[21], 1, 20) else s.count)
            && r.timeoutField == (if m > 22 && start[22] != 0 then start[22] else s.timeoutField)
            && r.soundWindow == SoundWindow(r.timeoutField) && r.matchWindow == MatchWindow(r.soundWindow)
            && r.sounds == 0 && r.profiles == 0 && r.attenRetries == 0 && r.avg == NoSound()
            && r.nmk == s.nmk && r.nid == s.nid
  {
    hide TraceOf, Uniform, SoundWindow, MatchWindow;
  }

  /** A request and a start message, met in any state, open a sounding round with the agreed count, a window of
      100 ms per unit but at least 200 ms, and a match window of 1000 ms more but at least 2000. */
  lemma NegotiatedExactly(s: State, req: Buffer, n: nat, start: Buffer, m: nat, t1: u32, t2: u32)
    requires Shaped(s) && MessageType(req) == 0x6064 && MessageType(start) == 0x606A
    ensures var r := OnMessage(OnMessage(s, req, n, t1), start, m, t2);
            && r.modem == MnbcSound && r.soundsTimer == t2 && r.profiles == 0
            && r.pevMac == req[6..12] && r.runId == req[21..29]
            && r.count == AgreedCount(req, n, start, m)
            && r.soundWindow == AtLeast(100 * AgreedField(req, n, start, m), 200)
            && r.matchWindow == AtLeast(r.soundWindow + 1000, 2000)
  {
    hide OnMessage, MessageType, SoundWindow, MatchWindow;
    RequestAgrees(s, req, n, t1);
    StartAgrees(OnMessage(s, req, n, t1), start, m, t2);
    WindowsMean(AgreedField(req, n, start, m));
  }

  // ---------------------------------------------------------------- the report's fields

  lemma AddressBytes(s: State)
    requires Shaped(s)
    ensures var f := IndFrame(s);
            && f[..6] == s.pevMac && f[6..12] == s.myMac && f[12..17] == [0x88, 0xE1, 0x01, 0x6E, 0x60]
            && f[21..27] == s.pevMac && f[27..35] == s.runId && f[70] == 58
            && f[69] == AtMost(if s.sounds != 0 then s.sounds else s.profiles, s.count)
            && (forall k :: 17 <= k < 21 || 35 <= k < 69 || k == 129 ==> f[k] == 0)
  {
    hide Samples;
    var f := IndFrame(s);
    assert f[..6] == s.pevMac;
    assert f[6..12] == s.myMac;
    assert f[21..27] == s.pevMac;
    assert f[27..35] == s.runId;
  }

  /** Counting sounds in 8 bits makes no difference below the cap. */
  lemma CappedSame(s: State, sounds: nat)
    requires Counted(s, sounds) && s.count <= MAX_COUNT
    ensures s.sounds != 0 <==> sounds != 0
    ensures AtMost(s.sounds, s.count) == AtMost(sounds, s.count)
  {
  }

  function AtMost(x: nat, most: nat): nat {
    if x > most then most else x
  }

  lemma MessageKeepsMac(s: State, rx: Buffer, n: nat, now: u32)
    requires Shaped(s)
    ensures OnMessage(s, rx, n, now).myMac == s.myMac
  {
    hide IndFrame, TraceOf, Uniform, SoundWindow, MatchWindow;
  }

  lemma {:induction false} ArrivalsKeepMac(s: State, burst: seq<Arrival>, now: u32)
    requires Shaped(s)
    ensures Arrivals(s, burst, now).myMac == s.myMac
  {
    if burst != [] {
      hide OnMessage;
      ArrivalsKeepMac(s, burst[..|burst| - 1], now);
      var last := burst[|burst| - 1];
      MessageKeepsMac(Arrivals(s, burst[..|burst| - 1], now), last.rx, last.n, now);
    }
  }

  lemma TickKeepsMac(s: State, i: Input)
    requires Shaped(s)
    ensures Tick(s, i).myMac == s.myMac
  {
    hide Arrivals, IndFrame, TraceOf, Uniform, Due, Timers;
    ArrivalsKeepMac(PilotEdge(s, i.connected), i.burst, i.now);
    TimersKeepMac(Poll(PilotEdge(s, i.connected), i), i.now);
  }

  lemma TimersKeepMac(s: State, now: u32)
    requires Shaped(s)
    ensures Timers(s, now).myMac == s.myMac
  {
    hide IndFrame, TraceOf, Uniform, Due;
  }

  lemma {:induction false} RunKeepsMac(s: State, ins: seq<Input>)
    requires Shaped(s)
    ensures Run(s, ins).myMac == s.myMac
  {
    if ins != [] {
      hide Tick;
      RunKeepsMac(s, ins[..|ins| - 1]);
      TickKeepsMac(Run(s, ins[..|ins| - 1]), ins[|ins| - 1]);
    }
  }

  /** In every run each report of the round is addressed to the vehicle of the latest request, comes from the
      station, carries that vehicle, its run, the number of groups, and as number of sounds the sounds heard, or
      the accepted profiles where none was, but at most the agreed count. */
  lemma ReportsAddressed(myMac: Data, ins: seq<Input>, k: nat)
    requires |myMac| == 6
    requires var s := Run(Initial(myMac), ins); s.modem == AttenCharInd && k < |TraceOf(s.log).inds|
    ensures var s := Run(Initial(myMac), ins); var t := TraceOf(s.log); var f := t.inds[k];
            && |f| == IND_LEN
            && f[..6] == t.mac && f[6..12] == myMac && f[12..17] == [0x88, 0xE1, 0x01, 0x6E, 0x60]
            && f[21..27] == t.mac && f[27..35] == t.runId && f[70] == 58
            && f[69] == AtMost(if t.sounds != 0 then t.sounds else |t.profiles|, s.count)
  {
    hide Run, TraceOf, Uniform, IndFrame, Sum;
    InitialOk(myMac);
    RunOk(Initial(myMac), ins);
    RunKeepsMac(Initial(myMac), ins);
    AddressBytes(Run(Initial(myMac), ins));
    CappedSame(Run(Initial(myMac), ins), TraceOf(Run(Initial(myMac), ins).log).sounds);
  }

  // ---------------------------------------------------------------- a match that succeeds

  /** A burst of so many well-formed profiles. */
  predicate Profiles(burst: seq<Arrival>) {
    forall k :: 0 <= k < |burst| ==> MessageType(burst[k].rx) == 0x6086 && burst[k].n >= 85
  }

  function Values(burst: seq<Arrival>): (vs: seq<Data>)
    ensures |vs| == |burst| && forall k :: 0 <= k < |vs| ==> |vs[k]| == GROUPS && vs[k] == burst[k].rx[27..85]
  {
    if burst == [] then [] else Values(burst[..|burst| - 1]) + [burst[|burst| - 1].rx[27..85]]
  }

  function ProfileActs(vs: seq<Data>): seq<Act> {
    if vs == [] then [] else ProfileActs(vs[..|vs| - 1]) + [Profile(vs[|vs| - 1])]
  }

  /** r has taken in these profiles since s, and is otherwise as s. */
  predicate Taken(s: State, r: State, vs: seq<Data>) {
    r == s.(log := s.log + ProfileActs(vs), avg := r.avg, profiles := r.profiles) && Averaged(r, vs)
  }

  lemma ProfileTaken(s: State, r: State, vs: seq<Data>, rx: Buffer, n: nat, now: u32)
    requires Shaped(r) && Taken(s, r, vs) && r.modem == MnbcSound && MessageType(rx) == 0x6086 && n >= 85
    requires |vs| < s.count <= MAX_COUNT
    ensures var v := rx[27..85]; var q := Accept(r, v);
            && Taken(s, q, vs + [v])
            && OnMessage(r, rx, n, now) == if |vs| + 1 == s.count then Transmit(q, now) else q
  {
    hide TraceOf, Uniform, IndFrame, Transmit, OnParamReq, OnStart, OnRsp, OnMatch, OnGetSw, Averaged;
    var v := rx[27..85];
    AveragedCount(r, vs);
    AcceptSums(r, v, vs);
    assert (vs + [v])[..|vs|] == vs;
    assert s.log + ProfileActs(vs) + [Profile(v)] == s.log + (ProfileActs(vs) + [Profile(v)]);
  }

  lemma AveragedCount(s: State, vs: seq<Data>)
    requires Averaged(s, vs)
    ensures s.profiles == |vs|
  {
  }

  lemma {:induction false} ProfilesTaken(s: State, burst: seq<Arrival>, now: u32)
    requires Shaped(s) && s.modem == MnbcSound && Averaged(s, []) && Profiles(burst)
    requires |burst| < s.count <= MAX_COUNT
    ensures Taken(s, Arrivals(s, burst, now), Values(burst))
  {
    if burst == [] {
      assert s.log + [] == s.log;
    } else {
      hide OnMessage, Taken, Averaged;
      var p, last := burst[..|burst| - 1], burst[|burst| - 1];
      ProfilesTaken(s, p, now);
      StillSounding(s, Arrivals(s, p, now), Values(p));
      ProfileTaken(s, Arrivals(s, p, now), Values(p), last.rx, last.n, now);
    }
  }

  lemma StillSounding(s: State, r: State, vs: seq<Data>)
    requires Taken(s, r, vs)
    ensures r.modem == s.modem && r.count == s.count && r.profiles == |vs|
  {
  }

  lemma LastProfileTaken(s: State, burst: seq<Arrival>, now: u32) returns (q: State)
    requires Shaped(s) && s.modem == MnbcSound && Averaged(s, []) && Profiles(burst)
    requires |burst| == s.count && 0 < s.count <= MAX_COUNT
    ensures Shaped(q) && Taken(s, q, Values(burst)) && Arrivals(s, burst, now) == Transmit(q, now)
  {
    hide OnMessage, Taken, Averaged, Transmit;
    var p, last := burst[..|burst| - 1], burst[|burst| - 1];
    ProfilesTaken(s, p, now);
    StillSounding(s, Arrivals(s, p, now), Values(p));
    ProfileTaken(s, Arrivals(s, p, now), Values(p), last.rx, last.n, now);
    q := Accept(Arrivals(s, p, now), last.rx[27..85]);
  }

  /** A report on these profiles, for this vehicle and run. */
  predicate ReportOn(f: Data, mac: Data, runId: Data, vs: seq<Data>)
    requires forall k :: 0 <= k < |vs| ==> |vs[k]| == GROUPS
  {
    && |f| == IND_LEN && f[..6] == mac && f[21..27] == mac && f[27..35] == runId
    && forall i :: 71 <= i < 71 + GROUPS ==> IsMean(f[i], vs, i - 71)
  }

  lemma FrameReports(s: State, vs: seq<Data>)
    requires Shaped(s) && Averaged(s, vs)
    ensures ReportOn(IndFrame(s), s.pevMac, s.runId, vs)
  {
    hide IndFrame, IsMean, Averaged, Sum;
    AddressBytes(s);
    AveragedLengths(s, vs);
    forall i | 71 <= i < 71 + GROUPS ensures IsMean(IndFrame(s)[i], vs, i - 71) {
      FrameMean(s, vs, i - 71);
    }
  }

  lemma AveragedLengths(s: State, vs: seq<Data>)
    requires Averaged(s, vs)
    ensures forall k :: 0 <= k < |vs| ==> |vs[k]| == GROUPS
  {
  }

  /** Sounding that completes: with as many profiles as agreed on, the last one is followed by the report. */
  lemma SoundingCompletes(s: State, burst: seq<Arrival>, now: u32) returns (f: Data)
    requires Shaped(s) && s.modem == MnbcSound && Averaged(s, []) && Profiles(burst)
    requires |burst| == s.count && 0 < s.count <= MAX_COUNT
    ensures var r := Arrivals(s, burst, now);
            && r.modem == AttenCharInd && r.pevMac == s.pevMac && r.runId == s.runId && r.nmk == s.nmk && r.nid == s.nid
            && ReportOn(f, s.pevMac, s.runId, Values(burst))
            && r.log == s.log + ProfileActs(Values(burst)) + [IndSent(f)]
  {
    hide IndFrame, TraceOf, Uniform, Averaged, ReportOn, Arrivals, Values;
    var q := LastProfileTaken(s, burst, now);
    FrameReports(q, Values(burst));
    f := IndFrame(q);
  }

  /** The messages of a vehicle that goes through a match as it should. */
  predicate Proper(req: Buffer, start: Buffer, m: nat, burst: seq<Arrival>, rsp: Buffer, mat: Buffer, n: nat) {
    && MessageType(req) == 0x6064 && MessageType(start) == 0x606A
    && Profiles(burst) && |burst| == AgreedCount(req, n, start, m)
    && MessageType(rsp) == 0x606F && rsp[21..27] == req[6..12] && rsp[27..35] == req[21..29] && rsp[69] == 0
    && MessageType(mat) == 0x607C && mat[40..46] == req[6..12] && mat[69..77] == req[21..29]
    && mat[21] == 62 && mat[22] == 0
  }

  /** The station after all of them, each handled at its own time. */
  function AfterMatch(s: State, req: Buffer, n: nat, start: Buffer, m: nat, burst: seq<Arrival>, rsp: Buffer,
                      mat: Buffer, at: nat -> u32): State
    requires Shaped(s)
  {
    var sounding := OnMessage(OnMessage(s, req, n, at(0)), start, m, at(1));
    OnMessage(OnMessage(Arrivals(sounding, burst, at(2)), rsp, |rsp|, at(3)), mat, |mat|, at(4))
  }

  lemma NoProfiles(s: State)
    requires s.avg == NoSound() && s.profiles == 0
    ensures Averaged(s, [])
  {
  }

  lemma RspAccepted(s: State, rx: Buffer, n: nat, now: u32)
    requires Shaped(s) && s.modem == AttenCharInd && MessageType(rx) == 0x606F
    requires rx[21..27] == s.pevMac && rx[27..35] == s.runId && rx[69] == 0
    ensures var r := OnMessage(s, rx, n, now);
            && r.modem == AttenCharRsp && r.log == s.log + [RspOk(s.pevMac, s.runId)]
            && r.pevMac == s.pevMac && r.runId == s.runId && r.nmk == s.nmk && r.nid == s.nid
  {
    hide TraceOf, Uniform, MatchWindow;
  }

  lemma MatchAccepted(s: State, rx: Buffer, n: nat, now: u32)
    requires Shaped(s) && s.modem == AttenCharRsp && MessageType(rx) == 0x607C
    requires rx[40..46] == s.pevMac && rx[69..77] == s.runId && rx[21] == 62 && rx[22] == 0
    ensures var r := OnMessage(s, rx, n, now);
            r.modem == GetSwReq && r.log == s.log + [MatchOk(s.pevMac, s.runId, s.nmk, s.nid)]
  {
    hide TraceOf, Uniform;
  }

  /** A vehicle that goes through a match as it should gets one report, the mean of its profiles group by group,
      and the current key, whatever state its request finds the station in; and the station goes on to look for
      the modems. */
  lemma MatchSucceeds(s: State, req: Buffer, n: nat, start: Buffer, m: nat, burst: seq<Arrival>, rsp: Buffer,
                      mat: Buffer, at: nat -> u32) returns (f: Data)
    requires Shaped(s) && Proper(req, start, m, burst, rsp, mat, n)
    ensures var r := AfterMatch(s, req, n, start, m, burst, rsp, mat, at);
            var mac, runId := req[6..12], req[21..29];
            && r.modem == GetSwReq
            && ReportOn(f, mac, runId, Values(burst))
            && r.log == s.log + [ParamReq(mac, runId)] + [StartAtten] + ProfileActs(Values(burst)) + [IndSent(f)]
                        + [RspOk(mac, runId)] + [MatchOk(mac, runId, s.nmk, s.nid)]
  {
    hide OnMessage, Arrivals, MessageType, ReportOn, Values, ProfileActs, Profiles, Averaged, SoundWindow, MatchWindow;
    RequestAgrees(s, req, n, at(0));
    var asked := OnMessage(s, req, n, at(0));
    StartAgrees(asked, start, m, at(1));
    var sounding := OnMessage(asked, start, m, at(1));
    NoProfiles(sounding);
    f := SoundingCompletes(sounding, burst, at(2));
    var reported := Arrivals(sounding, burst, at(2));
    RspAccepted(reported, rsp, |rsp|, at(3));
    MatchAccepted(OnMessage(reported, rsp, |rsp|, at(3)), mat, |mat|, at(4));
  }

  // ---------------------------------------------------------------- keys

  /** A lost vehicle ends whatever match was going on: in the same pass, with nothing received, a new key is to
      be set, and the next pass sets it to the random bytes drawn, its head the network id. */
  lemma LostVehicleRekeys(s: State, i: Input, j: Input)
    requires Shaped(s) && s.lastConnected && !i.connected && i.burst == []
    ensures var r := Tick(s, i); var q := Tick(r, j);
            && r.modem == SetKeyReq && q.modem == SetKeyCnf && r.log == s.log && q.log == s.log
            && q.nmk == j.random && q.nid == [j.random[0] % 64] + j.random[1..7]
  {
    hide TraceOf, Uniform;
  }

  /** Powering up: the modem's signature is awaited, then its full write space, then a key is set; none of
      these is passed over. */
  lemma PowersUpExactly(s: State, i: Input)
    requires Shaped(s) && NoEdge(s, i)
    ensures var r := Tick(s, i);
            && (s.modem == Powerup ==> r.modem == if i.signature == 0xAA55 then WriteSpace else Powerup)
            && (s.modem == WriteSpace ==> r.modem == if i.space == 3163 then SetKeyReq else WriteSpace)
            && (s.modem == SetKeyReq ==> r.modem == SetKeyCnf && r.nmk == i.random)
  {
    hide TraceOf, Uniform, Arrivals;
  }

  /** A pass in which exactly one message arrives. */
  predicate OneMessage(s: State, i: Input, rx: Buffer)
    requires Shaped(s)
  {
    NoEdge(s, i) && |i.burst| == 1 && i.burst[0].rx == rx && MessageType(rx) != 0x6064
  }

  /** The key is set exactly when the modem says so: the station then waits for a vehicle, with the key drawn one
      pass before and the modem that confirmed it noted as its own; any other answer leaves it waiting. */
  lemma KeySetExactly(s: State, i: Input, j: Input, rx: Buffer)
    requires Shaped(s) && s.modem == SetKeyReq && !s.rotate && NoEdge(s, i) && OneMessage(Tick(s, i), j, rx)
    ensures var r := Tick(Tick(s, i), j);
            && (r.modem == Configured <==> MessageType(rx) == 0x6009 && rx[19] == 1)
            && (r.modem == SetKeyCnf <==> !(MessageType(rx) == 0x6009 && rx[19] == 1))
            && r.nmk == i.random && r.log == s.log
            && (r.modem == Configured ==> r.modemMac == rx[6..12])
  {
    hide Tick, TraceOf, Uniform;
    KeyDrawn(s, i);
    KeyAnswered(Tick(s, i), j, rx);
  }

  lemma KeyDrawn(s: State, i: Input)
    requires Shaped(s) && s.modem == SetKeyReq && !s.rotate && NoEdge(s, i)
    ensures var r := Tick(s, i); r.modem == SetKeyCnf && r.nmk == i.random && r.log == s.log && !r.rotate
  {
    hide TraceOf, Uniform;
  }

  lemma KeyAnswered(s: State, j: Input, rx: Buffer)
    requires Shaped(s) && s.modem == SetKeyCnf && !s.rotate && OneMessage(s, j, rx)
    ensures var r := Tick(s, j); var set0 := MessageType(rx) == 0x6009 && rx[19] == 1;
            && r.modem == (if set0 then Configured else SetKeyCnf) && r.nmk == s.nmk && r.log == s.log
            && (set0 ==> r.modemMac == rx[6..12])
  {
    hide TraceOf, Uniform, OnParamReq, OnStart, OnProfile, OnRsp, OnMatch, OnGetSw, Arrivals;
    var t := PilotEdge(s, j.connected);
    OneArrival(t, j.burst, j.now);
  }

  lemma OneArrival(s: State, burst: seq<Arrival>, now: u32)
    requires Shaped(s) && |burst| == 1
    ensures Arrivals(s, burst, now) == OnMessage(s, burst[0].rx, burst[0].n, now)
  {
    hide OnMessage;
    assert Arrivals(s, burst[..0], now) == s;
  }
}
