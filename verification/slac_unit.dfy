/** The matching process of src/main.cpp as it runs: globals, the accumulator and the transmit buffer are
    updated in place. Every method is tied to the value-level specification of Slac. */
module SlacUnit {
  import opened Bytes
  import opened Slac

  class Matcher {
    const myMac: Data
    var modemState: Modem
    var pevMac: Data
    var pevRunId: Data
    var myModemMac: Data
    var pevModemMac: Data
    const avgACVar: array<u16>
    const txbuffer: array<byte>
    var nmk: Data
    var nid: Data
    var soundsTimer: u32
    var modemSearchTimer: u32
    var attenCharResponseTimer: u32
    var slacMatchTimer: u32
    var modemsFound: byte
    var receivedSounds: byte
    var receivedProfiles: byte
    var negotiatedSoundCount: byte
    var negotiatedSoundTimeoutField: byte
    var currentSoundWindowMs: u32
    var currentMatchWindowMs: u32
    var slacRetryCounter: byte
    var attenCharRetryCounter: byte
    var pendingSessionKeyRotation: bool
    var lastCpConnected: bool
    ghost var log: seq<Act>

    ghost predicate Valid()
      reads this
    {
      && |myMac| == 6 && |pevMac| == 6 && |pevRunId| == 8 && |nmk| == 16 && |nid| == 7
      && avgACVar.Length == GROUPS && txbuffer.Length == BUFFER
    }

    ghost function Abs(): (s: State)
      requires Valid()
      reads this, avgACVar
      ensures Shaped(s)
    {
      State(modemState, myMac, pevMac, pevRunId, myModemMac, pevModemMac,
            avgACVar[..], nmk, nid,
            soundsTimer, modemSearchTimer, attenCharResponseTimer, slacMatchTimer,
            modemsFound, receivedSounds, receivedProfiles, negotiatedSoundCount, negotiatedSoundTimeoutField,
            currentSoundWindowMs, currentMatchWindowMs, slacRetryCounter, attenCharRetryCounter,
            pendingSessionKeyRotation, lastCpConnected, log)
    }

    constructor (mac: Data)
      requires |mac| == 6
      ensures Valid() && fresh(avgACVar) && fresh(txbuffer) && Abs() == Initial(mac)
    {
      myMac := mac;
      modemState := Powerup;
      pevMac, pevRunId := seq(6, _ => 0), seq(8, _ => 0);
      myModemMac, pevModemMac := seq(6, _ => 0), seq(6, _ => 0);
      avgACVar := new u16[GROUPS](_ => 0);
      txbuffer := new byte[BUFFER](_ => 0);
      nmk, nid := seq(16, _ => 0), [1, 2, 3, 4, 5, 6, 7];
      soundsTimer, modemSearchTimer, attenCharResponseTimer, slacMatchTimer := 0, 0, 0, 0;
      modemsFound, receivedSounds, receivedProfiles := 0, 0, 0;
      negotiatedSoundCount, negotiatedSoundTimeoutField := 10, DEFAULT_TIMEOUT;
      currentSoundWindowMs, currentMatchWindowMs := 600, MATCH_TIMEOUT_MS;
      slacRetryCounter, attenCharRetryCounter := 0, 0;
      pendingSessionKeyRotation, lastCpConnected := false, false;
      log := [];
      new;
      assert avgACVar[..] == NoSound();
    }

    // -------------------------------------------------------------- composing frames

    method ClearTx(n: nat)
      requires Valid() && n <= BUFFER
      modifies txbuffer
      ensures forall k :: 0 <= k < BUFFER ==> txbuffer[k] == if k < n then 0 else old(txbuffer[k])
    {
      for i := 0 to n
        invariant forall k :: 0 <= k < BUFFER ==> txbuffer[k] == if k < i then 0 else old(txbuffer[k])
      {
        txbuffer[i] := 0;
      }
    }

    method PutAt(at: nat, src: Data)
      requires Valid() && at + |src| <= BUFFER
      modifies txbuffer
      ensures forall k :: 0 <= k < BUFFER ==>
                txbuffer[k] == if at <= k < at + |src| then src[k - at] else old(txbuffer[k])
    {
      for i := 0 to |src|
        invariant forall k :: 0 <= k < BUFFER ==>
                    txbuffer[k] == if at <= k < at + i then src[k - at] else old(txbuffer[k])
      {
        txbuffer[at + i] := src[i];
      }
    }

    method SetACVarField(offset: nat, samples: byte)
      requires Valid() && offset + GROUPS <= BUFFER
      modifies txbuffer
      ensures forall k :: 0 <= k < BUFFER ==>
                txbuffer[k] == if offset <= k < offset + GROUPS
                               then (avgACVar[k - offset] / (if samples != 0 then samples else 1)) % 256
                               else old(txbuffer[k])
    {
      var divisor := if samples != 0 then samples else 1;
      for i := 0 to GROUPS
        invariant forall k :: 0 <= k < BUFFER ==>
                    txbuffer[k] == if offset <= k < offset + i
                                   then (avgACVar[k - offset] / divisor) % 256 else old(txbuffer[k])
      {
        txbuffer[offset + i] := (avgACVar[i] / divisor) % 256;
      }
    }

    method ComposeAttenCharInd()
      requires Valid()
      modifies txbuffer
      ensures txbuffer[..IND_LEN] == IndFrame(Abs())
    {
      ClearTx(IND_LEN);
      PutAt(0, pevMac);
      PutAt(6, myMac);
      PutAt(12, [0x88, 0xE1, 0x01, 0x6E, 0x60]);
      PutAt(21, pevMac);
      PutAt(27, pevRunId);
      var reportedSounds := if receivedSounds != 0 then receivedSounds else receivedProfiles;
      if reportedSounds > negotiatedSoundCount {
        reportedSounds := negotiatedSoundCount;
      }
      var samples := if receivedProfiles != 0 then receivedProfiles
                     else if reportedSounds != 0 then reportedSounds else 1;
      PutAt(69, [reportedSounds, 0x3A]);
      SetACVarField(71, samples);
      forall i: nat | i < IND_LEN ensures txbuffer[i] == IndByte(Abs(), i) {
      }
    }

    method TransmitAttenCharInd(now: u32)
      requires Valid()
      modifies this`modemState, this`attenCharResponseTimer, this`attenCharRetryCounter, this`log, txbuffer
      ensures Valid() && Abs() == Transmit(old(Abs()), now)
    {
      hide IndFrame, TraceOf, Uniform;
      ComposeAttenCharInd();
      log := log + [IndSent(txbuffer[..IND_LEN])];
      AwaitResponse(now);
    }

    /** The response timer starts and the report is counted. */
    method AwaitResponse(now: u32)
      requires Valid()
      modifies this`modemState, this`attenCharResponseTimer, this`attenCharRetryCounter
      ensures Valid()
      ensures Abs() == old(Abs()).(modem := AttenCharInd, indTimer := now,
                                   attenRetries := if old(attenCharRetryCounter) < 255 then old(attenCharRetryCounter) + 1
                                                   else old(attenCharRetryCounter))
    {
      modemState := AttenCharInd;
      attenCharResponseTimer := now;
      if attenCharRetryCounter < 255 {
        attenCharRetryCounter := attenCharRetryCounter + 1;
      }
    }

    /** The answer to a MATCH.REQ carries network id and key at fixed places. */
    method ComposeSlacMatchCnf()
      requires Valid()
      modifies txbuffer
      ensures txbuffer[..6] == pevMac && txbuffer[6..12] == myMac
      ensures txbuffer[12..17] == [0x88, 0xE1, 0x01, 0x7D, 0x60] && txbuffer[21..23] == [62, 0]
      ensures txbuffer[40..46] == pevMac && txbuffer[63..69] == myMac && txbuffer[69..77] == pevRunId
      ensures txbuffer[85..92] == nid && txbuffer[93..109] == nmk
    {
      ClearTx(109);
      PutAt(0, pevMac);
      PutAt(6, myMac);
      PutAt(12, [0x88, 0xE1, 0x01, 0x7D, 0x60]);
      PutAt(21, [0x3E, 0x00]);
      PutAt(40, pevMac);
      PutAt(63, myMac);
      PutAt(69, pevRunId);
      PutAt(85, nid);
      PutAt(93, nmk);
    }

    method RandomizeNmk(random: Key)
      requires Valid()
      modifies this`nmk, this`nid
      ensures Valid() && Abs() == NewKey(old(Abs()), random)
    {
      nmk := random;
      nid := nmk[..7];
      nid := nid[0 := nid[0] % 0x40];
      assert nid == [random[0] % 0x40] + random[1..7];
    }

    method ClearAverages()
      requires Valid()
      modifies avgACVar
      ensures avgACVar[..] == NoSound()
    {
      for i := 0 to GROUPS
        invariant forall k :: 0 <= k < i ==> avgACVar[k] == 0
      {
        avgACVar[i] := 0;
      }
    }

    method ClearSlacMeasurements()
      requires Valid()
      modifies this`receivedSounds, this`receivedProfiles, this`attenCharResponseTimer, this`slacMatchTimer, avgACVar
      ensures Valid() && Abs() == ClearMeasurements(old(Abs()))
    {
      receivedSounds, receivedProfiles := 0, 0;
      attenCharResponseTimer, slacMatchTimer := 0, 0;
      ClearAverages();
    }

    method HandleSlacFailure()
      requires Valid()
      modifies this, avgACVar
      ensures Valid() && Abs() == Fail(old(Abs()))
    {
      ClearSlacMeasurements();
      if slacRetryCounter < SLAC_RETRIES {
        slacRetryCounter := slacRetryCounter + 1;
      }
      attenCharRetryCounter := 0;
      Rearm();
    }

    /** Back to waiting for a vehicle, with a new key. */
    method Rearm()
      requires Valid()
      modifies this`modemState, this`pendingSessionKeyRotation
      ensures Valid() && Abs() == old(Abs()).(modem := Configured, rotate := true)
    {
      modemState := Configured;
      pendingSessionKeyRotation := true;
    }

    method RefreshWindows()
      requires Valid()
      modifies this`currentSoundWindowMs, this`currentMatchWindowMs
      ensures Valid() && Abs() == WithWindows(old(Abs()))
    {
      currentSoundWindowMs := SoundWindow(negotiatedSoundTimeoutField);
      RefreshMatchWindow();
    }

    method RefreshMatchWindow()
      requires Valid()
      modifies this`currentMatchWindowMs
      ensures Valid() && Abs() == old(Abs()).(matchWindow := MatchWindow(old(currentSoundWindowMs)))
    {
      var candidate := (currentSoundWindowMs + MATCH_MARGIN_MS) % TWO32;
      if candidate < MATCH_TIMEOUT_MS {
        candidate := MATCH_TIMEOUT_MS;
      }
      currentMatchWindowMs := candidate;
    }

    // -------------------------------------------------------------- SlacManager

    /** Sound count and timeout out of a SLAC_PARAM.REQ. */
    method Negotiate(rx: Buffer, n: nat)
      requires Valid()
      modifies this`negotiatedSoundCount, this`negotiatedSoundTimeoutField
      ensures Valid()
      ensures Abs() == old(Abs()).(count := if n > 26 then Capped(rx[25]) else 10,
                                   timeoutField := if n > 26 && rx[26] != 0 then rx[26] else DEFAULT_TIMEOUT)
    {
      if n > 26 {
        negotiatedSoundCount := rx[25];
        if negotiatedSoundCount == 0 {
          negotiatedSoundCount := 1;
        }
        if negotiatedSoundCount > MAX_COUNT {
          negotiatedSoundCount := MAX_COUNT;
        }
        negotiatedSoundTimeoutField := if rx[26] != 0 then rx[26] else DEFAULT_TIMEOUT;
      } else {
        negotiatedSoundCount := 10;
        negotiatedSoundTimeoutField := DEFAULT_TIMEOUT;
      }
    }

    /** The vehicle and run the match is for. */
    method RememberVehicle(mac: Data, runId: Data)
      requires Valid() && |mac| == 6 && |runId| == 8
      modifies this`pevMac, this`pevRunId, this`log
      ensures Valid()
      ensures Abs() == Log(old(Abs()), ParamReq(mac, runId)).(pevMac := mac, runId := runId)
    {
      hide TraceOf, Uniform;
      pevMac, pevRunId := mac, runId;
      log := log + [ParamReq(mac, runId)];
    }

    method ClearCounters()
      requires Valid()
      modifies this`slacRetryCounter, this`attenCharRetryCounter, this`receivedSounds, this`receivedProfiles
      ensures Valid()
      ensures Abs() == old(Abs()).(slacRetries := 0, attenRetries := 0, sounds := 0, profiles := 0)
    {
      slacRetryCounter, attenCharRetryCounter := 0, 0;
      receivedSounds, receivedProfiles := 0, 0;
    }

    method TakeParamReq(rx: Buffer, n: nat)
      requires Valid()
      modifies this
      ensures Valid() && Abs() == OnParamReq(old(Abs()), rx, n)
    {
      hide SoundWindow, MatchWindow, TraceOf, Uniform, Capped;
      Negotiate(rx, n);
      RefreshWindows();
      RememberVehicle(rx[6..12], rx[21..29]);
      ClearCounters();
      modemState := SlacParamCnf;
    }

    /** Sound count and timeout out of a START_ATTEN_CHAR.IND, where it names them. */
    method Renegotiate(rx: Buffer, n: nat)
      requires Valid()
      modifies this`negotiatedSoundCount, this`negotiatedSoundTimeoutField
      ensures Valid()
      ensures Abs() == old(Abs()).(
                count := if n > 21 && rx[21] != 0 then Capped(rx[21]) else old(negotiatedSoundCount),
                timeoutField := if n > 22 && rx[22] != 0 then rx[22] else old(negotiatedSoundTimeoutField))
    {
      if n > 21 && rx[21] != 0 {
        negotiatedSoundCount := rx[21];
        if negotiatedSoundCount > MAX_COUNT {
          negotiatedSoundCount := MAX_COUNT;
        }
      }
      if n > 22 && rx[22] != 0 {
        negotiatedSoundTimeoutField := rx[22];
      }
    }

    method CountSound()
      requires Valid()
      modifies this`receivedSounds, this`log
      ensures Valid()
      ensures Abs() == Log(old(Abs()), SoundHeard).(
                         sounds := if old(receivedSounds) < 255 then old(receivedSounds) + 1 else old(receivedSounds))
    {
      hide TraceOf, Uniform;
      log := log + [SoundHeard];
      if receivedSounds < 255 {
        receivedSounds := receivedSounds + 1;
      }
    }

    /** Counters, accumulator and timer of a new sounding round. */
    method BeginSounding(now: u32)
      requires Valid()
      modifies this`soundsTimer, this`receivedSounds, this`receivedProfiles, this`attenCharRetryCounter,
               this`log, this`modemState, avgACVar
      ensures Valid()
      ensures Abs() == Log(old(Abs()), StartAtten).(
                         soundsTimer := now, avg := NoSound(), sounds := 0, profiles := 0, attenRetries := 0,
                         modem := MnbcSound)
    {
      hide TraceOf, Uniform;
      ClearAverages();
      soundsTimer := now;
      receivedSounds, receivedProfiles, attenCharRetryCounter := 0, 0, 0;
      log := log + [StartAtten];
      modemState := MnbcSound;
    }

    method TakeStart(rx: Buffer, n: nat, now: u32)
      requires Valid()
      modifies this, avgACVar
      ensures Valid() && Abs() == OnStart(old(Abs()), rx, n, now)
    {
      hide WithWindows, TraceOf, Uniform, Capped;
      Renegotiate(rx, n);
      RefreshWindows();
      BeginSounding(now);
    }

    method AddToAverages(values: Data)
      requires Valid() && |values| == GROUPS
      modifies avgACVar
      ensures avgACVar[..] == Accumulated(old(avgACVar[..]), values)
    {
      for x := 0 to GROUPS
        invariant forall g :: 0 <= g < GROUPS ==>
                    avgACVar[g] == if g < x then AddTo(old(avgACVar[g]), values[g]) else old(avgACVar[g])
      {
        avgACVar[x] := AddTo(avgACVar[x], values[x]);
      }
    }

    /** Adds one profile to the accumulator. */
    method AddProfile(values: Data)
      requires Valid() && |values| == GROUPS && receivedProfiles < negotiatedSoundCount
      modifies this`receivedProfiles, this`log, avgACVar
      ensures Valid() && Abs() == Accept(old(Abs()), values)
    {
      hide TraceOf, Uniform;
      AddToAverages(values);
      receivedProfiles := receivedProfiles + 1;
      log := log + [Profile(values)];
    }

    method TakeProfile(rx: Buffer, n: nat, now: u32)
      requires Valid()
      modifies this, avgACVar, txbuffer
      ensures Valid() && Abs() == OnProfile(old(Abs()), rx, n, now)
    {
      hide Transmit, Accept, IndFrame;
      if n < 85 {
        return;
      }
      if receivedProfiles < negotiatedSoundCount {
        AddProfile(rx[27..27 + GROUPS]);
        if receivedProfiles >= negotiatedSoundCount && negotiatedSoundCount > 0 {
          TransmitAttenCharInd(now);
        }
      }
    }

    method AcceptRsp(now: u32)
      requires Valid()
      modifies this`modemState, this`slacMatchTimer, this`currentMatchWindowMs, this`attenCharRetryCounter
      ensures Valid()
      ensures Abs() == old(Abs()).(modem := AttenCharRsp, matchTimer := now, attenRetries := 0,
                                   matchWindow := MatchWindow(old(currentSoundWindowMs)))
    {
      modemState := AttenCharRsp;
      slacMatchTimer := now;
      RefreshMatchWindow();
      attenCharRetryCounter := 0;
    }

    method TakeRsp(rx: Buffer, now: u32)
      requires Valid()
      modifies this, avgACVar, txbuffer
      ensures Valid() && Abs() == OnRsp(old(Abs()), rx, now)
    {
      hide Transmit, Fail, IndFrame, TraceOf, Uniform, MatchWindow;
      if pevMac == rx[21..27] && pevRunId == rx[27..35] && rx[69] == 0 {
        AcceptRsp(now);
        log := log + [RspOk(rx[21..27], rx[27..35])];
      } else if attenCharRetryCounter < ATTEN_RETRIES {
        TransmitAttenCharInd(now);
      } else {
        HandleSlacFailure();
      }
    }

    /** The answer that hands out the network key. */
    method AnswerMatch()
      requires Valid()
      modifies this`modemState, this`attenCharRetryCounter, this`slacMatchTimer, this`log, txbuffer
      ensures Valid()
      ensures Abs() == Log(old(Abs()), MatchOk(pevMac, pevRunId, nmk, nid)).(
                         modem := GetSwReq, attenRetries := 0, matchTimer := 0)
    {
      hide TraceOf, Uniform;
      ComposeSlacMatchCnf();
      log := log + [MatchOk(pevMac, pevRunId, txbuffer[93..109], txbuffer[85..92])];
      modemState := GetSwReq;
      attenCharRetryCounter := 0;
      slacMatchTimer := 0;
    }

    method TakeMatchReq(rx: Buffer)
      requires Valid()
      modifies this, avgACVar, txbuffer
      ensures Valid() && Abs() == OnMatch(old(Abs()), rx)
    {
      hide Fail, TraceOf, Uniform;
      var mvfLength := rx[21] as int + rx[22] as int * 256;
      if pevMac == rx[40..46] && pevRunId == rx[69..77] && mvfLength == MVF_LEN {
        AnswerMatch();
      } else {
        HandleSlacFailure();
      }
    }

    method SlacManager(rx: Buffer, n: nat, now: u32)
      requires Valid()
      modifies this, avgACVar, txbuffer
      ensures Valid() && Abs() == OnMessage(old(Abs()), rx, n, now)
    {
      hide OnParamReq, OnStart, OnProfile, OnRsp, OnMatch, OnGetSw, TraceOf, Uniform;
      var mnt := rx[16] as int * 256 + rx[15];
      if mnt == SET_KEY_CNF {
        if rx[19] == 1 {
          modemState := Configured;
          myModemMac := rx[6..12];
        }
      } else if mnt == SLAC_PARAM_REQ {
        TakeParamReq(rx, n);
      } else if mnt == START_ATTEN_IND && modemState == SlacParamCnf {
        TakeStart(rx, n, now);
      } else if mnt == MNBC_SOUND_IND && modemState == MnbcSound {
        CountSound();
      } else if mnt == ATTEN_PROFILE_IND && modemState == MnbcSound {
        TakeProfile(rx, n, now);
      } else if mnt == ATTEN_CHAR_RSP && modemState == AttenCharInd {
        TakeRsp(rx, now);
      } else if mnt == SLAC_MATCH_REQ && modemState == AttenCharRsp {
        TakeMatchReq(rx);
      } else if mnt == GET_SW_CNF && modemState == WaitSw {
        TakeGetSw(rx);
      }
    }

    /** A modem has answered. */
    method TakeGetSw(rx: Buffer)
      requires Valid()
      modifies this`pevModemMac, this`modemsFound, this`log
      ensures Valid() && Abs() == OnGetSw(old(Abs()), rx)
    {
      hide TraceOf, Uniform;
      log := log + [GetSwHeard(rx[6..12])];
      CountModem(rx[6..12]);
    }

    method CountModem(mac: Data)
      requires Valid()
      modifies this`pevModemMac, this`modemsFound
      ensures Valid()
      ensures Abs() == old(Abs()).(pevModemMac := if mac != myModemMac then mac else old(pevModemMac),
                                   modemsFound := (old(modemsFound) + 1) % 256)
    {
      if mac != myModemMac {
        pevModemMac := mac;
      }
      modemsFound := (modemsFound + 1) % 256;
    }

    // -------------------------------------------------------------- the 20 ms timer

    method WatchPilot(connected: bool)
      requires Valid()
      modifies this, avgACVar
      ensures Valid() && Abs() == PilotEdge(old(Abs()), connected)
    {
      if !connected && lastCpConnected {
        ClearSlacMeasurements();
        Rearm();
      }
      lastCpConnected := connected;
    }

    method PollModem(i: Input)
      requires Valid()
      modifies this, avgACVar, txbuffer
      ensures Valid() && Abs() == Poll(old(Abs()), i)
    {
      hide OnMessage, NewKey, Arrivals, TraceOf, Uniform;
      match modemState
      case Powerup =>
        if i.signature == SIGNATURE {
          modemState := WriteSpace;
        }
      case WriteSpace =>
        if i.space == MODEM_SPACE {
          modemState := SetKeyReq;
        }
      case SetKeyReq =>
        RandomizeNmk(i.random);
        modemState := SetKeyCnf;
      case GetSwReq =>
        BeginSearch(i.now);
      case _ =>
        TakeBurst(i.burst, i.now);
    }

    /** The modems are asked to answer. */
    method BeginSearch(now: u32)
      requires Valid()
      modifies this`modemsFound, this`modemSearchTimer, this`modemState, this`log
      ensures Valid()
      ensures Abs() == Log(old(Abs()), GetSwSent).(modemsFound := 0, searchTimer := now, modem := WaitSw)
    {
      hide TraceOf, Uniform;
      log := log + [GetSwSent];
      StartSearchTimer(now);
    }

    method StartSearchTimer(now: u32)
      requires Valid()
      modifies this`modemsFound, this`modemSearchTimer, this`modemState
      ensures Valid() && Abs() == old(Abs()).(modemsFound := 0, searchTimer := now, modem := WaitSw)
    {
      modemsFound := 0;
      modemSearchTimer := now;
      modemState := WaitSw;
    }

    /** The messages of one burst, in order. */
    method TakeBurst(burst: seq<Arrival>, now: u32)
      requires Valid()
      modifies this, avgACVar, txbuffer
      ensures Valid() && Abs() == Arrivals(old(Abs()), burst, now)
    {
      hide OnMessage;
      for n := 0 to |burst|
        invariant Valid() && Abs() == Arrivals(old(Abs()), burst[..n], now)
      {
        assert burst[..n + 1][..n] == burst[..n];
        SlacManager(burst[n].rx, burst[n].n, now);
      }
      assert burst[..|burst|] == burst;
    }

    method CheckSounds(now: u32)
      requires Valid()
      modifies this, txbuffer
      ensures Valid() && Abs() == SoundStage(old(Abs()), now)
    {
      hide Transmit, IndFrame, TraceOf, Uniform;
      if modemState == MnbcSound {
        var soundsComplete := negotiatedSoundCount > 0 && receivedProfiles >= negotiatedSoundCount;
        var timerExpired := (soundsTimer + currentSoundWindowMs) % TWO32 < now;
        if soundsComplete || timerExpired {
          TransmitAttenCharInd(now);
        }
      }
    }

    method CheckResponse(now: u32)
      requires Valid()
      modifies this, avgACVar, txbuffer
      ensures Valid() && Abs() == IndStage(old(Abs()), now)
    {
      hide Transmit, Fail, IndFrame, TraceOf, Uniform;
      if modemState == AttenCharInd && (attenCharResponseTimer + RSP_TIMEOUT_MS) % TWO32 < now {
        if attenCharRetryCounter < ATTEN_RETRIES {
          TransmitAttenCharInd(now);
        } else {
          HandleSlacFailure();
        }
      }
    }

    method CheckMatch(now: u32)
      requires Valid()
      modifies this, avgACVar
      ensures Valid() && Abs() == MatchStage(old(Abs()), now)
    {
      hide Fail;
      if modemState == AttenCharRsp && (slacMatchTimer + currentMatchWindowMs) % TWO32 < now {
        HandleSlacFailure();
      }
    }

    method CheckSearch(now: u32)
      requires Valid()
      modifies this`modemState
      ensures Valid() && Abs() == SearchStage(old(Abs()), now)
    {
      if modemState == WaitSw && (modemSearchTimer + SEARCH_MS) % TWO32 < now {
        if modemsFound >= 2 {
          modemState := LinkReady;
        } else {
          modemState := GetSwReq;
        }
      }
    }

    method CheckRotation()
      requires Valid()
      modifies this`modemState, this`pendingSessionKeyRotation
      ensures Valid() && Abs() == RotateStage(old(Abs()))
    {
      if pendingSessionKeyRotation && modemState == Configured {
        pendingSessionKeyRotation := false;
        modemState := SetKeyReq;
      }
    }

    /** The matching part of one pass of Timer20ms. */
    method Timer20ms(i: Input)
      requires Valid()
      modifies this, avgACVar, txbuffer
      ensures Valid() && Abs() == Tick(old(Abs()), i)
    {
      hide PilotEdge, Poll, SoundStage, IndStage, MatchStage, SearchStage, RotateStage;
      WatchPilot(i.connected);
      PollModem(i);
      CheckSounds(i.now);
      CheckResponse(i.now);
      CheckMatch(i.now);
      CheckSearch(i.now);
      CheckRotation();
    }
  }
}
