/** SLAC matching of src/main.cpp (ISO 15118-3, Annex A) on values: management messages from the vehicle and
    the 20 ms tick move the modem state. `log` records what a reader of the protocol would look for. */
module Slac {
  import opened Bytes

  datatype Modem =
    | Powerup | WriteSpace | SetKeyReq | SetKeyCnf | Configured
    | SlacParamCnf | MnbcSound | AttenCharInd | AttenCharRsp
    | GetSwReq | WaitSw | LinkReady

  const GROUPS: nat := 58
  const IND_LEN: nat := 130
  const MAX_COUNT: nat := 20
  const SLAC_RETRIES: nat := 3
  const ATTEN_RETRIES: nat := 3
  const RSP_TIMEOUT_MS: nat := 500
  const MATCH_TIMEOUT_MS: nat := 2000
  const MATCH_MARGIN_MS: nat := 1000
  const MIN_WINDOW_MS: nat := 200
  const WINDOW_UNIT_MS: nat := 100
  const SEARCH_MS: nat := 1000
  const DEFAULT_TIMEOUT: byte := 6
  const MVF_LEN: nat := 0x3E

  const SET_KEY_CNF := 0x6009
  const SLAC_PARAM_REQ := 0x6064
  const START_ATTEN_IND := 0x606A
  const MNBC_SOUND_IND := 0x6076
  const ATTEN_PROFILE_IND := 0x6086
  const ATTEN_CHAR_RSP := 0x606F
  const SLAC_MATCH_REQ := 0x607C
  const GET_SW_CNF := 0xA001

  /** Events of the matching process. */
  datatype Act =
    | ParamReq(mac: Data, runId: Data)
    | StartAtten
    | SoundHeard
    | Profile(values: Data)
    | IndSent(frame: Data)
    | RspOk(mac: Data, runId: Data)
    | MatchOk(mac: Data, runId: Data, nmk: Data, nid: Data)   // answered with MATCH.CNF
    | GetSwSent
    | GetSwHeard(mac: Data)

  datatype State = State(
    modem: Modem, myMac: Data, pevMac: Data, runId: Data, modemMac: Data, pevModemMac: Data,
    avg: seq<u16>, nmk: Data, nid: Data,
    soundsTimer: u32, searchTimer: u32, indTimer: u32, matchTimer: u32,
    modemsFound: byte, sounds: byte, profiles: byte, count: byte, timeoutField: byte,
    soundWindow: u32, matchWindow: u32, slacRetries: byte, attenRetries: byte,
    rotate: bool, lastConnected: bool,
    log: seq<Act>)

  // ---------------------------------------------------------------- log monitor

  /** What the log since the latest SLAC_PARAM.REQ amounts to. Stage 1: that request; 2: sounding started;
      3: attenuation reported; 4: a matching response; 5: a matching MATCH.REQ, answered with a key; 6: modems
      asked for. `sounds` counts the sounds of the round, `answers` the modems heard since they were last
      asked for. */
  datatype Trace = Trace(
    stage: nat, mac: Data, runId: Data, nmk: Data, nid: Data, profiles: seq<Data>, inds: seq<Data>, sounds: nat,
    answers: nat)

  function Follow(t: Trace, a: Act): Trace {
    match a
    case ParamReq(mac, runId) => t.(stage := 1, mac := mac, runId := runId)
    case StartAtten => t.(stage := if t.stage >= 1 then 2 else 0, profiles := [], inds := [], sounds := 0)
    case SoundHeard => t.(sounds := t.sounds + 1)
    case Profile(values) => t.(profiles := t.profiles + [values])
    case IndSent(frame) => t.(stage := if t.stage == 2 then 3 else t.stage, inds := t.inds + [frame])
    case RspOk(mac, runId) =>
      if t.stage == 3 && mac == t.mac && runId == t.runId then t.(stage := 4) else t
    case MatchOk(mac, runId, nmk, nid) =>
      if t.stage == 4 && mac == t.mac && runId == t.runId then t.(stage := 5, nmk := nmk, nid := nid) else t
    case GetSwSent => t.(stage := if t.stage >= 5 then 6 else t.stage, answers := 0)
    case GetSwHeard(_) => t.(answers := t.answers + 1)
  }

  function TraceOf(log: seq<Act>): Trace {
    if log == [] then Trace(0, [], [], [], [], [], [], 0, 0) else Follow(TraceOf(log[..|log| - 1]), log[|log| - 1])
  }

  /** A report may follow when it repeats the earlier ones of its sounding round, at most twice. */
  predicate MayFollow(t: Trace, a: Act) {
    a.IndSent? ==> |t.inds| < ATTEN_RETRIES && (t.inds != [] ==> t.inds[0] == a.frame)
  }

  /** Every report of the log repeats its round's first, and no round has more than three. */
  predicate Uniform(log: seq<Act>) {
    forall k :: 0 <= k < |log| ==> MayFollow(TraceOf(log[..k]), log[k])
  }

  function Log(s: State, a: Act): (r: State)
    ensures r == s.(log := s.log + [a])
    ensures TraceOf(r.log) == Follow(TraceOf(s.log), a)
    ensures Uniform(s.log) && MayFollow(TraceOf(s.log), a) ==> Uniform(r.log)
  {
    var log := s.log + [a];
    assert log[..|log| - 1] == s.log;
    assert forall k :: 0 <= k < |s.log| ==> log[..k] == s.log[..k];
    s.(log := log)
  }

  // ---------------------------------------------------------------- attenuation report

  /** Number of sounds reported to the vehicle. */
  function Reported(s: State): byte {
    var r := if s.sounds != 0 then s.sounds else s.profiles;
    if r > s.count then s.count else r
  }

  function Samples(s: State): (n: byte)
    ensures n > 0
  {
    if s.profiles != 0 then s.profiles else if Reported(s) != 0 then Reported(s) else 1
  }

  /** One byte of the CM_ATTEN_CHAR.IND frame. */
  function IndByte(s: State, i: nat): byte
    requires |s.pevMac| == 6 && |s.myMac| == 6 && |s.runId| == 8 && |s.avg| == GROUPS
  {
    if i < 6 then s.pevMac[i]
    else if i < 12 then s.myMac[i - 6]
    else if i == 12 then 0x88
    else if i == 13 then 0xE1
    else if i == 14 then 0x01
    else if i == 15 then 0x6E
    else if i == 16 then 0x60
    else if 21 <= i < 27 then s.pevMac[i - 21]
    else if 27 <= i < 35 then s.runId[i - 27]
    else if i == 69 then Reported(s)
    else if i == 70 then 0x3A
    else if 71 <= i < 71 + GROUPS then (s.avg[i - 71] / Samples(s)) % 256
    else 0
  }

  function IndFrame(s: State): (f: Data)
    requires Shaped(s)
    ensures |f| == IND_LEN
  {
    seq(IND_LEN, i requires 0 <= i < IND_LEN => IndByte(s, i))
  }

  predicate Shaped(s: State) {
    && |s.myMac| == 6 && |s.pevMac| == 6 && |s.runId| == 8 && |s.avg| == GROUPS
    && |s.nmk| == 16 && |s.nid| == 7
  }

  function Transmit(s: State, now: u32): (r: State)
    requires Shaped(s)
    ensures Shaped(r)
  {
    Log(s, IndSent(IndFrame(s))).(
      modem := AttenCharInd, indTimer := now,
      attenRetries := if s.attenRetries < 255 then s.attenRetries + 1 else s.attenRetries)
  }

  /** An empty accumulator. */
  function NoSound(): (r: seq<u16>)
    ensures |r| == GROUPS && forall g :: 0 <= g < GROUPS ==> r[g] == 0
  {
    seq(GROUPS, _ => 0)
  }

  function ClearMeasurements(s: State): (r: State)
    requires Shaped(s)
    ensures Shaped(r)
  {
    s.(sounds := 0, profiles := 0, indTimer := 0, matchTimer := 0, avg := NoSound())
  }

  function Fail(s: State): (r: State)
    requires Shaped(s)
    ensures Shaped(r)
  {
    ClearMeasurements(s.(slacRetries := if s.slacRetries < SLAC_RETRIES then s.slacRetries + 1 else s.slacRetries,
                         attenRetries := 0)).(modem := Configured, rotate := true)
  }

  // ---------------------------------------------------------------- windows

  function SoundWindow(field: byte): (w: u32)
    ensures MIN_WINDOW_MS <= w <= 25500
  {
    var w := (if field != 0 then field else DEFAULT_TIMEOUT) * WINDOW_UNIT_MS;
    if w < MIN_WINDOW_MS then MIN_WINDOW_MS else w
  }

  function MatchWindow(soundWindow: u32): u32 {
    var c := (soundWindow + MATCH_MARGIN_MS) % TWO32;
    if c < MATCH_TIMEOUT_MS then MATCH_TIMEOUT_MS else c
  }

  function WithWindows(s: State): (r: State)
    requires Shaped(s)
    ensures Shaped(r)
  {
    s.(soundWindow := SoundWindow(s.timeoutField), matchWindow := MatchWindow(SoundWindow(s.timeoutField)))
  }

  function Capped(count: byte): byte {
    if count == 0 then 1 else if count > MAX_COUNT then MAX_COUNT else count
  }

  // ---------------------------------------------------------------- messages

  function MessageType(rx: Buffer): u16 {
    rx[16] as int * 256 + rx[15]
  }

  function OnParamReq(s: State, rx: Buffer, n: nat): (r: State)
    requires Shaped(s)
    ensures Shaped(r)
  {
    var t := s.(pevMac := rx[6..12], runId := rx[21..29],
                count := if n > 26 then Capped(rx[25]) else 10,
                timeoutField := if n > 26 && rx[26] != 0 then rx[26] else DEFAULT_TIMEOUT,
                slacRetries := 0, attenRetries := 0, sounds := 0, profiles := 0);
    Log(WithWindows(t), ParamReq(rx[6..12], rx[21..29])).(modem := SlacParamCnf)
  }

  function OnStart(s: State, rx: Buffer, n: nat, now: u32): (r: State)
    requires Shaped(s)
    ensures Shaped(r)
  {
    var t := s.(count := if n > 21 && rx[21] != 0 then Capped(rx[21]) else s.count,
                timeoutField := if n > 22 && rx[22] != 0 then rx[22] else s.timeoutField);
    Log(WithWindows(t), StartAtten).(
      soundsTimer := now, avg := NoSound(), sounds := 0, profiles := 0, attenRetries := 0,
      modem := MnbcSound)
  }

  /** `AvgACVar[x] += value`, in 16 bits. */
  function AddTo(a: u16, value: byte): u16 {
    (a as int + value as int) % 0x1_0000
  }

  function Accumulated(avg: seq<u16>, values: Data): (r: seq<u16>)
    requires |avg| == |values|
    ensures |r| == |avg|
  {
    seq(|avg|, g requires 0 <= g < |avg| => AddTo(avg[g], values[g]))
  }

  /** An accepted profile. */
  function Accept(s: State, values: Data): (r: State)
    requires Shaped(s) && |values| == GROUPS && s.profiles < s.count
    ensures Shaped(r)
  {
    Log(s, Profile(values)).(avg := Accumulated(s.avg, values), profiles := s.profiles + 1)
  }

  function OnProfile(s: State, rx: Buffer, n: nat, now: u32): (r: State)
    requires Shaped(s)
    ensures Shaped(r)
  {
    if n < 85 || s.profiles >= s.count then s
    else
      var t := Accept(s, rx[27..27 + GROUPS]);
      if t.profiles >= t.count && t.count > 0 then Transmit(t, now) else t
  }

  function OnRsp(s: State, rx: Buffer, now: u32): (r: State)
    requires Shaped(s)
    ensures Shaped(r)
  {
    if s.pevMac == rx[21..27] && s.runId == rx[27..35] && rx[69] == 0 then
      Log(s, RspOk(rx[21..27], rx[27..35])).(
        modem := AttenCharRsp, matchTimer := now, matchWindow := MatchWindow(s.soundWindow), attenRetries := 0)
    else if s.attenRetries < ATTEN_RETRIES then Transmit(s, now)
    else Fail(s)
  }

  function OnMatch(s: State, rx: Buffer): (r: State)
    requires Shaped(s)
    ensures Shaped(r)
  {
    if s.pevMac == rx[40..46] && s.runId == rx[69..77] && rx[21] as int + rx[22] as int * 256 == MVF_LEN then
      Log(s, MatchOk(rx[40..46], rx[69..77], s.nmk, s.nid)).(
        modem := GetSwReq, attenRetries := 0, matchTimer := 0)
    else Fail(s)
  }

  /** A modem answers; the last one that is not the station's own is taken for the vehicle's. */
  function OnGetSw(s: State, rx: Buffer): (r: State)
    requires Shaped(s)
    ensures Shaped(r)
  {
    Log(s, GetSwHeard(rx[6..12])).(
      pevModemMac := if rx[6..12] != s.modemMac then rx[6..12] else s.pevModemMac,
      modemsFound := (s.modemsFound + 1) % 256)
  }

  /** SlacManager. */
  function OnMessage(s: State, rx: Buffer, n: nat, now: u32): (r: State)
    requires Shaped(s)
    ensures Shaped(r)
  {
    var mnt := MessageType(rx);
    if mnt == SET_KEY_CNF then
      if rx[19] == 1 then s.(modem := Configured, modemMac := rx[6..12]) else s
    else if mnt == SLAC_PARAM_REQ then OnParamReq(s, rx, n)
    else if mnt == START_ATTEN_IND && s.modem == SlacParamCnf then OnStart(s, rx, n, now)
    else if mnt == MNBC_SOUND_IND && s.modem == MnbcSound then
      Log(s, SoundHeard).(sounds := if s.sounds < 255 then s.sounds + 1 else s.sounds)
    else if mnt == ATTEN_PROFILE_IND && s.modem == MnbcSound then OnProfile(s, rx, n, now)
    else if mnt == ATTEN_CHAR_RSP && s.modem == AttenCharInd then OnRsp(s, rx, now)
    else if mnt == SLAC_MATCH_REQ && s.modem == AttenCharRsp then OnMatch(s, rx)
    else if mnt == GET_SW_CNF && s.modem == WaitSw then
      OnGetSw(s, rx)
    else s
  }

  // ---------------------------------------------------------------- the 20 ms tick

  datatype Arrival = Arrival(rx: Buffer, n: nat)

  /** Inputs of one tick: pilot state, two modem registers, fresh random bytes, the matching messages of
      one burst in order, and the clock. */
  datatype Input = Input(
    connected: bool, signature: u16, space: u16, random: Key, burst: seq<Arrival>, now: u32)

  type Key = d: Data | |d| == 16 witness seq(16, _ => 0)

  const SIGNATURE := 0xAA55
  const MODEM_SPACE := 3163

  function PilotEdge(s: State, connected: bool): (r: State)
    requires Shaped(s)
    ensures Shaped(r)
  {
    var t := if !connected && s.lastConnected
             then ClearMeasurements(s).(modem := Configured, rotate := true) else s;
    t.(lastConnected := connected)
  }

  /** A fresh network key; the network id is its head with the two top bits cleared. */
  function NewKey(s: State, random: Key): (r: State)
    requires Shaped(s)
    ensures Shaped(r)
  {
    s.(nmk := random, nid := [random[0] % 0x40] + random[1..7])
  }

  function Arrivals(s: State, burst: seq<Arrival>, now: u32): (r: State)
    requires Shaped(s)
    ensures Shaped(r)
  {
    if burst == [] then s
    else OnMessage(Arrivals(s, burst[..|burst| - 1], now), burst[|burst| - 1].rx, burst[|burst| - 1].n, now)
  }

  function Poll(s: State, i: Input): (r: State)
    requires Shaped(s)
    ensures Shaped(r)
  {
    match s.modem
    case Powerup => if i.signature == SIGNATURE then s.(modem := WriteSpace) else s
    case WriteSpace => if i.space == MODEM_SPACE then s.(modem := SetKeyReq) else s
    case SetKeyReq => NewKey(s, i.random).(modem := SetKeyCnf)
    case GetSwReq => Log(s, GetSwSent).(modemsFound := 0, searchTimer := i.now, modem := WaitSw)
    case _ => Arrivals(s, i.burst, i.now)
  }

  predicate Due(timer: u32, window: nat, now: u32) {
    (timer + window) % TWO32 < now
  }

  function SoundStage(s: State, now: u32): (r: State)
    requires Shaped(s)
    ensures Shaped(r)
  {
    if s.modem == MnbcSound && ((s.count > 0 && s.profiles >= s.count) || Due(s.soundsTimer, s.soundWindow, now))
    then Transmit(s, now) else s
  }

  function IndStage(s: State, now: u32): (r: State)
    requires Shaped(s)
    ensures Shaped(r)
  {
    if s.modem == AttenCharInd && Due(s.indTimer, RSP_TIMEOUT_MS, now) then
      (if s.attenRetries < ATTEN_RETRIES then Transmit(s, now) else Fail(s))
    else s
  }

  function MatchStage(s: State, now: u32): (r: State)
    requires Shaped(s)
    ensures Shaped(r)
  {
    if s.modem == AttenCharRsp && Due(s.matchTimer, s.matchWindow, now) then Fail(s) else s
  }

  function SearchStage(s: State, now: u32): (r: State)
    requires Shaped(s)
    ensures Shaped(r)
  {
    if s.modem == WaitSw && Due(s.searchTimer, SEARCH_MS, now) then
      s.(modem := if s.modemsFound >= 2 then LinkReady else GetSwReq)
    else s
  }

  function RotateStage(s: State): (r: State)
    requires Shaped(s)
    ensures Shaped(r)
  {
    if s.rotate && s.modem == Configured then s.(rotate := false, modem := SetKeyReq) else s
  }

  function Timers(s: State, now: u32): (r: State)
    requires Shaped(s)
    ensures Shaped(r)
  {
    RotateStage(SearchStage(MatchStage(IndStage(SoundStage(s, now), now), now), now))
  }

  function Tick(s: State, i: Input): (r: State)
    requires Shaped(s)
    ensures Shaped(r)
  {
    Timers(Poll(PilotEdge(s, i.connected), i), i.now)
  }

  function Initial(myMac: Data): (r: State)
    requires |myMac| == 6
    ensures Shaped(r)
  {
    State(Powerup, myMac, seq(6, _ => 0), seq(8, _ => 0), seq(6, _ => 0), seq(6, _ => 0),
          NoSound(), seq(16, _ => 0), [1, 2, 3, 4, 5, 6, 7],
          0, 0, 0, 0, 0, 0, 0, 10, DEFAULT_TIMEOUT, 600, MATCH_TIMEOUT_MS, 0, 0, false, false, [])
  }
}
