/** What every run of the matching process keeps. */
module SlacSafety {
  import opened Bytes
  import opened Slac

  // ---------------------------------------------------------------- invariant

  /** Sum of group g over a list of profiles. */
  function Sum(ps: seq<Data>, g: nat): nat
    requires forall k :: 0 <= k < |ps| ==> |ps[k]| == GROUPS
    requires g < GROUPS
  {
    if ps == [] then 0 else Sum(ps[..|ps| - 1], g) + ps[|ps| - 1][g]
  }

  /** The accumulator holds, group by group, the sum of the profiles accepted since sounding started. */
  predicate Averaged(s: State, ps: seq<Data>) {
    && |s.avg| == GROUPS && s.profiles == |ps|
    && (forall k :: 0 <= k < |ps| ==> |ps[k]| == GROUPS)
    && (forall g :: 0 <= g < GROUPS ==> s.avg[g] == Sum(ps, g))
  }

  /** The 8-bit counter stops at its largest value. */
  predicate Counted(s: State, sounds: nat) {
    s.sounds == if sounds < 255 then sounds else 255
  }

  predicate Reports(s: State, inds: seq<Data>)
    requires Shaped(s)
  {
    && 1 <= |inds| <= ATTEN_RETRIES && s.attenRetries == |inds|
    && forall k :: 0 <= k < |inds| ==> inds[k] == IndFrame(s)
  }

  /** What each modem state says about the log. */
  predicate Staged(s: State)
    requires Shaped(s)
  {
    var t := TraceOf(s.log);
    && (t.stage >= 1 ==> t.mac == s.pevMac && t.runId == s.runId)
    && match s.modem
       case SlacParamCnf => t.stage >= 1
       case MnbcSound => t.stage == 2 && Averaged(s, t.profiles) && s.profiles < s.count
                         && s.attenRetries == 0 && t.inds == [] && Counted(s, t.sounds)
       case AttenCharInd => t.stage == 3 && Averaged(s, t.profiles) && s.profiles <= s.count
                            && Reports(s, t.inds) && Counted(s, t.sounds)
       case AttenCharRsp => t.stage == 4
       case GetSwReq => 5 <= t.stage <= 6 && t.nmk == s.nmk && t.nid == s.nid
       case WaitSw => t.stage == 6 && t.nmk == s.nmk && t.nid == s.nid && s.modemsFound == t.answers % 256
       case LinkReady => t.stage == 6 && t.nmk == s.nmk && t.nid == s.nid && t.answers >= 2
       case _ => true
  }

  predicate Ok(s: State) {
    && Shaped(s) && s.nid[0] < 0x40 && 1 <= s.count <= MAX_COUNT
    && MIN_WINDOW_MS <= s.soundWindow <= 25500 && MATCH_TIMEOUT_MS <= s.matchWindow <= 26500
    && Uniform(s.log)
    && Staged(s)
  }

  // ---------------------------------------------------------------- reports

  /** The frame depends on addresses, counters and accumulator only. */
  lemma SameFrame(s: State, t: State)
    requires Shaped(s) && Shaped(t)
    requires s.pevMac == t.pevMac && s.myMac == t.myMac && s.runId == t.runId && s.avg == t.avg
    requires s.sounds == t.sounds && s.profiles == t.profiles && s.count == t.count
    ensures IndFrame(s) == IndFrame(t)
  {
    assert forall i: nat :: i < IND_LEN ==> IndByte(s, i) == IndByte(t, i);
  }

  lemma TransmitOk(s: State, now: u32)
    requires Ok(s) && (s.modem == MnbcSound || s.modem == AttenCharInd) && s.attenRetries < ATTEN_RETRIES
    ensures Ok(Transmit(s, now)) && Transmit(s, now).modem == AttenCharInd
    ensures Transmit(s, now).attenRetries == s.attenRetries + 1 && Transmit(s, now).indTimer == now
    ensures Transmit(s, now).rotate == s.rotate
  {
    hide Uniform, IndFrame, TraceOf, Sum;
    SameFrame(s, Transmit(s, now));
  }

  /** The last profile of a round is accepted and reported in one go. */
  lemma LastProfileOk(s: State, now: u32)
    requires Shaped(s) && s.nid[0] < 0x40 && 1 <= s.count <= MAX_COUNT && s.modem == MnbcSound
    requires MIN_WINDOW_MS <= s.soundWindow <= 25500 && MATCH_TIMEOUT_MS <= s.matchWindow <= 26500
    requires var t := TraceOf(s.log);
             && t.mac == s.pevMac && t.runId == s.runId && t.stage == 2
             && Averaged(s, t.profiles) && s.profiles == s.count && s.attenRetries == 0 && t.inds == [] && Counted(s, t.sounds)
    requires Uniform(s.log)
    ensures Ok(Transmit(s, now))
  {
    hide Uniform, IndFrame, TraceOf, Sum;
    SameFrame(s, Transmit(s, now));
  }

  lemma FailOk(s: State)
    requires Ok(s)
    ensures Ok(Fail(s))
  {
    hide Uniform, IndFrame, TraceOf, Sum;
  }

  // ---------------------------------------------------------------- messages

  lemma ParamReqOk(s: State, rx: Buffer, n: nat)
    requires Ok(s)
    ensures Ok(OnParamReq(s, rx, n))
  {
    hide Uniform, IndFrame, TraceOf, Sum;
  }

  lemma StartOk(s: State, rx: Buffer, n: nat, now: u32)
    requires Ok(s) && s.modem == SlacParamCnf
    ensures Ok(OnStart(s, rx, n, now))
  {
    hide Uniform, IndFrame, TraceOf;
    assert Averaged(OnStart(s, rx, n, now), []);
  }

  lemma SumStep(ps: seq<Data>, v: Data, g: nat)
    requires |v| == GROUPS && g < GROUPS && forall k :: 0 <= k < |ps| ==> |ps[k]| == GROUPS
    ensures Sum(ps + [v], g) == Sum(ps, g) + v[g]
  {
    assert (ps + [v])[..|ps|] == ps;
  }

  /** Sums stay far below 16 bits. */
  lemma {:induction false} SumBound(ps: seq<Data>, g: nat)
    requires g < GROUPS && forall k :: 0 <= k < |ps| ==> |ps[k]| == GROUPS
    ensures Sum(ps, g) <= 255 * |ps|
  {
    if ps != [] {
      SumBound(ps[..|ps| - 1], g);
    }
  }

  lemma AcceptSums(s: State, v: Data, ps: seq<Data>)
    requires Shaped(s) && |v| == GROUPS && s.profiles < s.count <= MAX_COUNT && Averaged(s, ps)
    ensures Averaged(Accept(s, v), ps + [v])
  {
    hide TraceOf, Uniform, Sum;
    forall g | 0 <= g < GROUPS ensures Accept(s, v).avg[g] == Sum(ps + [v], g) {
      SumStep(ps, v, g);
      SumBound(ps, g);
    }
  }

  lemma ProfileOk(s: State, rx: Buffer, n: nat, now: u32)
    requires Ok(s) && s.modem == MnbcSound
    ensures Ok(OnProfile(s, rx, n, now))
  {
    hide Uniform, IndFrame, TraceOf, Sum, Averaged, Transmit;
    if n >= 85 {
      var v := rx[27..27 + GROUPS];
      AcceptSums(s, v, TraceOf(s.log).profiles);
      var t := Accept(s, v);
      if t.profiles >= t.count {
        LastProfileOk(t, now);
      }
    }
  }

  lemma ResponseOk(s: State, rx: Buffer, now: u32)
    requires Ok(s) && s.modem == AttenCharInd
    ensures Ok(OnRsp(s, rx, now))
  {
    hide Uniform, IndFrame, TraceOf, Sum, Averaged, Transmit, Fail;
    FailOk(s);
    if s.attenRetries < ATTEN_RETRIES {
      TransmitOk(s, now);
    }
  }

  lemma MatchReqOk(s: State, rx: Buffer)
    requires Ok(s) && s.modem == AttenCharRsp
    ensures Ok(OnMatch(s, rx))
  {
    hide Uniform, IndFrame, TraceOf, Sum, Averaged, Fail;
    FailOk(s);
  }

  lemma GetSwOk(s: State, rx: Buffer)
    requires Ok(s) && s.modem == WaitSw
    ensures Ok(OnGetSw(s, rx))
  {
    hide Uniform, IndFrame, TraceOf, Sum;
  }

  lemma SoundHeardOk(s: State)
    requires Ok(s) && s.modem == MnbcSound
    ensures Ok(Log(s, SoundHeard).(sounds := if s.sounds < 255 then s.sounds + 1 else s.sounds))
  {
    hide Uniform, IndFrame, TraceOf, Sum;
  }

  lemma MessageOk(s: State, rx: Buffer, n: nat, now: u32)
    requires Ok(s)
    ensures Ok(OnMessage(s, rx, n, now))
  {
    hide Uniform, IndFrame, TraceOf, Sum, Averaged, OnParamReq, OnStart, OnProfile, OnRsp, OnMatch, OnGetSw;
    ParamReqOk(s, rx, n);
    match s.modem
    case SlacParamCnf => StartOk(s, rx, n, now);
    case MnbcSound =>
      ProfileOk(s, rx, n, now);
      SoundHeardOk(s);
    case AttenCharInd => ResponseOk(s, rx, now);
    case AttenCharRsp => MatchReqOk(s, rx);
    case WaitSw => GetSwOk(s, rx);
    case _ =>
  }

  // ---------------------------------------------------------------- tick

  lemma {:induction false} ArrivalsOk(s: State, burst: seq<Arrival>, now: u32)
    requires Ok(s)
    ensures Ok(Arrivals(s, burst, now))
  {
    if burst != [] {
      hide Ok, OnMessage;
      ArrivalsOk(s, burst[..|burst| - 1], now);
      var last := burst[|burst| - 1];
      MessageOk(Arrivals(s, burst[..|burst| - 1], now), last.rx, last.n, now);
    }
  }

  lemma PilotEdgeOk(s: State, connected: bool)
    requires Ok(s)
    ensures Ok(PilotEdge(s, connected))
  {
    hide Uniform, IndFrame, TraceOf, Sum;
    if connected || !s.lastConnected {
      SameFrame(s, PilotEdge(s, connected));
    }
  }

  lemma PollOk(s: State, i: Input)
    requires Ok(s)
    ensures Ok(Poll(s, i))
  {
    hide Uniform, IndFrame, TraceOf, Sum, Averaged, Arrivals;
    ArrivalsOk(s, i.burst, i.now);
  }

  lemma SoundStageOk(s: State, now: u32)
    requires Ok(s)
    ensures Ok(SoundStage(s, now))
  {
    hide Uniform, IndFrame, TraceOf, Sum, Averaged, Transmit, Due;
    if s.modem == MnbcSound {
      TransmitOk(s, now);
    }
  }

  lemma IndStageOk(s: State, now: u32)
    requires Ok(s)
    ensures Ok(IndStage(s, now))
  {
    hide Uniform, IndFrame, TraceOf, Sum, Averaged, Transmit, Fail, Due;
    FailOk(s);
    if s.modem == AttenCharInd && s.attenRetries < ATTEN_RETRIES {
      TransmitOk(s, now);
    }
  }

  lemma LateStagesOk(s: State, now: u32)
    requires Ok(s)
    ensures Ok(MatchStage(s, now)) && Ok(SearchStage(s, now)) && Ok(RotateStage(s))
  {
    hide Uniform, IndFrame, TraceOf, Sum, Fail, Due;
    FailOk(s);
    if s.modem == AttenCharInd {
      SameFrame(s, SearchStage(s, now));
      SameFrame(s, RotateStage(s));
    }
  }

  lemma TimersOk(s: State, now: u32)
    requires Ok(s)
    ensures Ok(Timers(s, now))
  {
    hide Staged, Uniform, SoundStage, IndStage, MatchStage, SearchStage, RotateStage;
    SoundStageOk(s, now);
    var t := SoundStage(s, now);
    IndStageOk(t, now);
    LateStagesOk(IndStage(t, now), now);
    var u := MatchStage(IndStage(t, now), now);
    LateStagesOk(u, now);
    LateStagesOk(SearchStage(u, now), now);
  }

  lemma TickOk(s: State, i: Input)
    requires Ok(s)
    ensures Ok(Tick(s, i))
  {
    hide Staged, Uniform, PilotEdge, Poll, Timers;
    PilotEdgeOk(s, i.connected);
    PollOk(PilotEdge(s, i.connected), i);
    TimersOk(Poll(PilotEdge(s, i.connected), i), i.now);
  }

  // ---------------------------------------------------------------- runs

  function Run(s: State, ins: seq<Input>): (r: State)
    requires Shaped(s)
    ensures Shaped(r)
  {
    if ins == [] then s else Tick(Run(s, ins[..|ins| - 1]), ins[|ins| - 1])
  }

  lemma {:induction false} RunOk(s: State, ins: seq<Input>)
    requires Ok(s)
    ensures Ok(Run(s, ins))
  {
    if ins != [] {
      hide Ok, Tick;
      RunOk(s, ins[..|ins| - 1]);
      TickOk(Run(s, ins[..|ins| - 1]), ins[|ins| - 1]);
    }
  }

  lemma InitialOk(myMac: Data)
    requires |myMac| == 6
    ensures Ok(Initial(myMac))
  {
  }

  // ---------------------------------------------------------------- the log, read back

  /** Of the first n entries, p is the latest request for a match. */
  predicate LatestRequest(log: seq<Act>, n: nat, p: nat, mac: Data, runId: Data)
    requires n <= |log|
  {
    && p < n && log[p] == ParamReq(mac, runId)
    && forall k :: p < k < n ==> !log[k].ParamReq?
  }

  /** The five milestones of a match, in order, all for the vehicle and run of the latest request. */
  predicate Matched(log: seq<Act>, p: nat, a: nat, i: nat, r: nat, m: nat, mac: Data, runId: Data, nmk: Data, nid: Data) {
    && p < a < i < r < m < |log| && LatestRequest(log, |log|, p, mac, runId)
    && log[a].StartAtten? && log[i].IndSent?
    && log[r] == RspOk(mac, runId) && log[m] == MatchOk(mac, runId, nmk, nid)
  }

  lemma TraceStep(log: seq<Act>, j: nat)
    requires 0 < j <= |log|
    ensures TraceOf(log[..j]) == Follow(TraceOf(log[..j - 1]), log[j - 1])
  {
    assert log[..j][..j - 1] == log[..j - 1];
  }

  lemma RequestStands(log: seq<Act>, n: nat, p: nat)
    requires n < |log|
    ensures match log[n]
            case ParamReq(mac, runId) => LatestRequest(log, n + 1, n, mac, runId)
            case _ => forall mac, runId ::
                        LatestRequest(log, n, p, mac, runId) ==> LatestRequest(log, n + 1, p, mac, runId)
    ensures forall mac, runId :: LatestRequest(log, n, p, mac, runId) ==> p < n
  {
  }

  /** Of the first n entries, q is the latest request for the modems, and so many of them have answered it. */
  predicate Asked(log: seq<Act>, q: nat, n: nat, answers: nat)
    requires n <= |log|
  {
    && q < n && log[q] == GetSwSent
    && (forall k :: q < k < n ==> log[k] != GetSwSent)
    && answers == Heard(log, q, n)
  }

  /** How many modems answered between positions q and n. */
  function Heard(log: seq<Act>, q: nat, n: nat): nat
    requires n <= |log|
    decreases n
  {
    if n <= q then 0 else Heard(log, q, n - 1) + (if log[n - 1].GetSwHeard? then 1 else 0)
  }

  lemma HeardMeans(log: seq<Act>, q: nat, n: nat, answers: nat)
    requires n <= |log|
    ensures Asked(log, q, n, answers) ==> answers == Heard(log, q, n)
  {
  }

  lemma JustAsked(log: seq<Act>, n: nat)
    requires n < |log| && log[n] == GetSwSent
    ensures Asked(log, n, n + 1, 0)
  {
    assert Heard(log, n, n) == 0;
  }

  lemma AskedOn(log: seq<Act>, q: nat, n: nat, answers: nat)
    requires n < |log| && Asked(log, q, n, answers) && log[n] != GetSwSent
    ensures Asked(log, q, n + 1, answers + (if log[n].GetSwHeard? then 1 else 0))
  {
  }

  /** What the monitor's stage stands for: so many milestones of a match lie, in order, in the first n entries. */
  predicate Reached(log: seq<Act>, n: nat, t: Trace, p: nat, a: nat, i: nat, r: nat, m: nat, q: nat)
    requires n <= |log|
  {
    && t.stage <= 6
    && (t.stage >= 1 ==> LatestRequest(log, n, p, t.mac, t.runId))
    && (t.stage >= 2 ==> p < a < n && log[a].StartAtten?)
    && (t.stage >= 3 ==> a < i < n && log[i].IndSent?)
    && (t.stage >= 4 ==> i < r < n && log[r] == RspOk(t.mac, t.runId))
    && (t.stage >= 5 ==> r < m < n && log[m] == MatchOk(t.mac, t.runId, t.nmk, t.nid))
    && (t.stage >= 6 ==> m < q && Asked(log, q, n, t.answers))
  }

  lemma NothingReached(log: seq<Act>)
    ensures Reached(log, 0, TraceOf(log[..0]), 0, 0, 0, 0, 0, 0)
  {
  }

  lemma RequestReached(log: seq<Act>, n: nat, t: Trace, p: nat, a: nat, i: nat, r: nat, m: nat, q: nat)
    requires n < |log| && Reached(log, n, t, p, a, i, r, m, q) && log[n].ParamReq?
    ensures Reached(log, n + 1, Follow(t, log[n]), n, a, i, r, m, q)
  {
  }

  /** An entry that completes no milestone. */
  lemma StillReached(log: seq<Act>, n: nat, t: Trace, p: nat, a: nat, i: nat, r: nat, m: nat, q: nat)
    requires n < |log| && Reached(log, n, t, p, a, i, r, m, q) && !log[n].ParamReq? && log[n] != GetSwSent
    requires Follow(t, log[n]).stage == t.stage
    ensures Reached(log, n + 1, Follow(t, log[n]), p, a, i, r, m, q)
  {
    hide LatestRequest, Asked;
    RequestStands(log, n, p);
    if t.stage >= 6 {
      AskedOn(log, q, n, t.answers);
    }
  }

  lemma NextReached(log: seq<Act>, n: nat, t: Trace, p: nat, a: nat, i: nat, r: nat, m: nat, q: nat)
    requires n < |log| && Reached(log, n, t, p, a, i, r, m, q) && !log[n].ParamReq? && !log[n].GetSwSent?
    requires Follow(t, log[n]).stage != t.stage || log[n].StartAtten?
    ensures var u := Follow(t, log[n]);
            Reached(log, n + 1, u, p, if u.stage == 2 then n else a, if u.stage == 3 then n else i,
                    if u.stage == 4 then n else r, if u.stage == 5 then n else m, q)
  {
    hide LatestRequest, Asked;
    RequestStands(log, n, p);
  }

  lemma AskReached(log: seq<Act>, n: nat, t: Trace, p: nat, a: nat, i: nat, r: nat, m: nat, q: nat)
    requires n < |log| && Reached(log, n, t, p, a, i, r, m, q) && log[n] == GetSwSent
    ensures Reached(log, n + 1, Follow(t, log[n]), p, a, i, r, m, n)
  {
    hide LatestRequest, Asked;
    RequestStands(log, n, p);
    JustAsked(log, n);
  }

  lemma OneMoreReached(log: seq<Act>, n: nat, t: Trace, p: nat, a: nat, i: nat, r: nat, m: nat, q: nat)
    returns (p': nat, a': nat, i': nat, r': nat, m': nat, q': nat)
    requires n < |log| && Reached(log, n, t, p, a, i, r, m, q)
    ensures Reached(log, n + 1, Follow(t, log[n]), p', a', i', r', m', q')
  {
    hide Reached, Follow;
    p', a', i', r', m', q' := p, a, i, r, m, q;
    var x := log[n];
    var stage := Follow(t, x).stage;
    if x.ParamReq? {
      RequestReached(log, n, t, p, a, i, r, m, q);
      p' := n;
    } else if x == GetSwSent {
      AskReached(log, n, t, p, a, i, r, m, q);
      q' := n;
    } else if stage == t.stage && !x.StartAtten? {
      StillReached(log, n, t, p, a, i, r, m, q);
    } else {
      NextReached(log, n, t, p, a, i, r, m, q);
      a', i' := if stage == 2 then n else a, if stage == 3 then n else i;
      r', m' := if stage == 4 then n else r, if stage == 5 then n else m;
    }
  }

  lemma {:induction false} Milestones(log: seq<Act>, n: nat) returns (p: nat, a: nat, i: nat, r: nat, m: nat, q: nat)
    requires n <= |log|
    ensures Reached(log, n, TraceOf(log[..n]), p, a, i, r, m, q)
  {
    hide TraceOf, Reached, Follow;
    if n == 0 {
      NothingReached(log);
      p, a, i, r, m, q := 0, 0, 0, 0, 0, 0;
    } else {
      p, a, i, r, m, q := Milestones(log, n - 1);
      TraceStep(log, n);
      p, a, i, r, m, q := OneMoreReached(log, n - 1, TraceOf(log[..n - 1]), p, a, i, r, m, q);
    }
  }

  /** Link soundness over whole runs: in every state behind a finished match, the log since the latest
      SLAC_PARAM.REQ holds the start of sounding, a report, and a response and MATCH.REQ for that very
      vehicle and run, in this order; the key and network id sent in the answer are still the current
      ones; and the two top bits of the network id are zero. While the modems are being looked for, the
      request for them follows that MATCH.REQ, and the counter holds the answers to it modulo 256; a link
      declared ready has had at least two. */
  lemma LinkSoundness(myMac: Data, ins: seq<Input>) returns (p: nat, a: nat, i: nat, r: nat, m: nat, q: nat)
    requires |myMac| == 6
    ensures var s := Run(Initial(myMac), ins);
            && s.nid[0] < 0x40
            && (s.modem == GetSwReq || s.modem == WaitSw || s.modem == LinkReady ==>
                  Matched(s.log, p, a, i, r, m, s.pevMac, s.runId, s.nmk, s.nid))
            && (s.modem == WaitSw || s.modem == LinkReady ==> m < q && Asked(s.log, q, |s.log|, Heard(s.log, q, |s.log|)))
            && (s.modem == WaitSw ==> s.modemsFound == Heard(s.log, q, |s.log|) % 256)
            && (s.modem == LinkReady ==> Heard(s.log, q, |s.log|) >= 2)
  {
    hide Run, TraceOf, Uniform, Averaged, LatestRequest, Asked;
    InitialOk(myMac);
    RunOk(Initial(myMac), ins);
    var log := Run(Initial(myMac), ins).log;
    p, a, i, r, m, q := Milestones(log, |log|);
    HeardMeans(log, q, |log|, TraceOf(log).answers);
    assert log[..|log|] == log;
  }

  /** Counters over whole runs: no report has been sent while sounding, one to three while waiting for a
      response; and accepted profiles never exceed the negotiated count of at most twenty. */
  lemma Counters(myMac: Data, ins: seq<Input>)
    requires |myMac| == 6
    ensures var s := Run(Initial(myMac), ins); var t := TraceOf(s.log);
            && (s.modem == MnbcSound ==> s.attenRetries == 0 && t.inds == [] && |t.profiles| < s.count <= MAX_COUNT)
            && (s.modem == AttenCharInd ==> s.attenRetries == |t.inds| && 1 <= |t.inds| <= 3
                                            && |t.profiles| <= s.count <= MAX_COUNT)
  {
    hide Sum, Uniform, TraceOf;
    InitialOk(myMac);
    RunOk(Initial(myMac), ins);
  }

  // ---------------------------------------------------------------- attenuation averages

  /** Smallest and largest value of a group. */
  predicate Between(ps: seq<Data>, g: nat, lo: nat, hi: nat)
    requires g < GROUPS && forall k :: 0 <= k < |ps| ==> |ps[k]| == GROUPS
  {
    forall k :: 0 <= k < |ps| ==> lo <= ps[k][g] <= hi
  }

  lemma {:induction false} SumBetween(ps: seq<Data>, g: nat, lo: nat, hi: nat)
    requires g < GROUPS && forall k :: 0 <= k < |ps| ==> |ps[k]| == GROUPS
    requires Between(ps, g, lo, hi)
    ensures lo * |ps| <= Sum(ps, g) <= hi * |ps|
  {
    if ps != [] {
      SumBetween(ps[..|ps| - 1], g, lo, hi);
      var n := |ps| - 1;
      assert lo * (n + 1) == lo * n + lo && hi * (n + 1) == hi * n + hi;
    }
  }

  lemma MeanBetween(sum: nat, n: nat, lo: nat, hi: nat)
    requires n > 0 && lo * n <= sum <= hi * n
    ensures lo <= sum / n <= hi
  {
    var q := sum / n;
    assert sum == q * n + sum % n;
    assert (q + 1 - lo) * n == q * n + n - lo * n;
    PositiveFactor(q + 1 - lo, n);
    assert (hi + 1 - q) * n == hi * n + n - q * n;
    PositiveFactor(hi + 1 - q, n);
  }

  lemma PositiveFactor(x: int, n: nat)
    requires x * n > 0
    ensures x > 0
  {
  }

  /** The group byte g of a report over profiles ps. */
  predicate IsMean(value: byte, ps: seq<Data>, g: nat)
    requires g < GROUPS && forall k :: 0 <= k < |ps| ==> |ps[k]| == GROUPS
  {
    && (ps == [] ==> value == 0)
    && (ps != [] ==> value == Sum(ps, g) / |ps|)
  }

  lemma NoTruncation(a: u16, n: byte)
    requires n > 0 && a / n <= 255
    ensures (a / n) % 256 == a / n
  {
  }

  lemma GroupByte(s: State, g: nat)
    requires Shaped(s) && g < GROUPS
    ensures IndFrame(s)[71 + g] == (s.avg[g] / Samples(s)) % 256
  {
    hide Samples, Reported;
  }

  lemma FrameMean(s: State, ps: seq<Data>, g: nat)
    requires Shaped(s) && Averaged(s, ps) && g < GROUPS
    ensures IsMean(IndFrame(s)[71 + g], ps, g)
  {
    hide Sum, Reported, IndFrame;
    GroupByte(s, g);
    if ps == [] {
      EmptySum(g);
    } else {
      SumBound(ps, g);
      MeanBetween(Sum(ps, g), |ps|, 0, 255);
      NoTruncation(s.avg[g], s.profiles);
    }
  }

  /** Averages over whole runs: while the report is out, each group byte of every report of the round is
      the exact floored mean of that group over the profiles accepted since sounding started; without
      any profile it is zero. */
  lemma ReportedMeans(myMac: Data, ins: seq<Input>, k: nat, g: nat)
    requires |myMac| == 6 && g < GROUPS
    requires var s := Run(Initial(myMac), ins); s.modem == AttenCharInd && k < |TraceOf(s.log).inds|
    ensures var s := Run(Initial(myMac), ins);
            var ps, ind := TraceOf(s.log).profiles, TraceOf(s.log).inds[k];
            && |ind| == IND_LEN && (forall q :: 0 <= q < |ps| ==> |ps[q]| == GROUPS)
            && IsMean(ind[71 + g], ps, g)
  {
    hide TraceOf, Uniform, Sum, IndFrame, IsMean;
    InitialOk(myMac);
    RunOk(Initial(myMac), ins);
    var s := Run(Initial(myMac), ins);
    FrameMean(s, TraceOf(s.log).profiles, g);
  }

  /** So every reported group byte lies between the smallest and the largest value of its group. */
  lemma MeanWithinRange(value: byte, ps: seq<Data>, g: nat, lo: nat, hi: nat)
    requires g < GROUPS && ps != [] && forall k :: 0 <= k < |ps| ==> |ps[k]| == GROUPS
    requires IsMean(value, ps, g) && Between(ps, g, lo, hi)
    ensures lo <= value <= hi
  {
    SumBetween(ps, g, lo, hi);
    MeanBetween(Sum(ps, g), |ps|, lo, hi);
  }

  lemma EmptySum(g: nat)
    requires g < GROUPS
    ensures Sum([], g) == 0
  {
  }

  // ---------------------------------------------------------------- identical reports

  predicate NoStart(log: seq<Act>, i: nat, j: nat)
    requires i <= j <= |log|
  {
    forall k :: i <= k < j ==> !log[k].StartAtten?
  }

  lemma {:induction false} ReportKept(log: seq<Act>, i: nat, j: nat)
    requires Uniform(log) && i < j <= |log| && log[i].IndSent? && NoStart(log, i, j)
    ensures var inds := TraceOf(log[..j]).inds; inds != [] && inds[0] == log[i].frame
    decreases j
  {
    hide TraceOf;
    TraceStep(log, j);
    if i + 1 < j {
      ReportKept(log, i, j - 1);
    } else {
      assert MayFollow(TraceOf(log[..i]), log[i]);
    }
  }

  lemma SameRound(log: seq<Act>, i: nat, j: nat)
    requires Uniform(log) && i < j < |log| && log[i].IndSent? && log[j].IndSent? && NoStart(log, i, j)
    ensures log[i].frame == log[j].frame
  {
    hide TraceOf;
    assert MayFollow(TraceOf(log[..j]), log[j]);
    ReportKept(log, i, j);
  }

  /** In every run all reports of one sounding round are byte for byte the same. */
  lemma ReportsIdentical(myMac: Data, ins: seq<Input>, i: nat, j: nat)
    requires |myMac| == 6
    requires var log := Run(Initial(myMac), ins).log;
             i < j < |log| && log[i].IndSent? && log[j].IndSent? && NoStart(log, i, j)
    ensures var log := Run(Initial(myMac), ins).log; log[i].frame == log[j].frame
  {
    hide Staged;
    InitialOk(myMac);
    RunOk(Initial(myMac), ins);
    SameRound(Run(Initial(myMac), ins).log, i, j);
  }
}
