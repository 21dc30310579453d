/** The outgoing half of src/tcp.cpp: one unacknowledged payload at a time, retransmitted on a timer.
    `wire` is the log of what reached the lower layer, oldest first. */
module TcpSender {
  import opened Bytes
  import V2gtp

  datatype TcpState = Closed | SynAck | Established

  datatype Wire =
    | SynAckSent(seqNr: u32, ackNr: u32)
    | AckSent(seqNr: u32, ackNr: u32)
    | Fresh(seqNr: u32, ackNr: u32, payload: Data)   // first transmission of a payload
    | Again(seqNr: u32, ackNr: u32, payload: Data)   // a retransmission
    | Socketed(payload: Data)                        // handed to the socket sender instead

  datatype Sender = Sender(
    tcp: TcpState, socket: bool, peerPort: u16,
    seqNr: u32, ackNr: u32,
    awaiting: bool, expected: u32, last: Data, lastTx: u32, attempts: nat,
    wire: seq<Wire>)

  const PACKET_CAPACITY: int := 200
  const HEADER_LEN: int := 20
  const RETRANSMIT_TIMEOUT_MS: int := 1000
  const MAX_RETRANSMIT: nat := 3
  const IDLE_TIMEOUT_MS: int := 5000

  // ---------------------------------------------------------------- monitors over the wire log

  /** Retransmissions since the last first transmission. */
  function AgainRun(w: seq<Wire>): nat {
    if w == [] then 0
    else match w[|w| - 1]
      case Fresh(_, _, _) => 0
      case Again(_, _, _) => AgainRun(w[..|w| - 1]) + 1
      case _ => AgainRun(w[..|w| - 1])
  }

  /** The payload most recently transmitted for the first time. */
  function LastFresh(w: seq<Wire>): Option<Data> {
    if w == [] then None
    else match w[|w| - 1]
      case Fresh(_, _, p) => Some(p)
      case _ => LastFresh(w[..|w| - 1])
  }

  /** What may follow a log: a payload that fits a segment; repeated, it is the last fresh one, at most a third
      time. */
  predicate MayFollow(w: seq<Wire>, x: Wire) {
    && (x.Fresh? || x.Again? ==> |x.payload| + HEADER_LEN < PACKET_CAPACITY)
    && (x.Again? ==> LastFresh(w) == Some(x.payload) && AgainRun(w) < MAX_RETRANSMIT)
  }

  /** Every payload in the log fits a segment, and every retransmission repeats the bytes of the latest fresh
      payload before it and is at most the third to do so: no payload goes out more than four times. */
  predicate WireOk(w: seq<Wire>) {
    forall k :: 0 <= k < |w| ==> MayFollow(w[..k], w[k])
  }

  function Put(x: Sender, w: Wire): (r: Sender)
    ensures r == x.(wire := x.wire + [w])
    ensures WireOk(x.wire) && MayFollow(x.wire, w) ==> WireOk(r.wire)
    ensures AgainRun(r.wire) == (match w case Fresh(_, _, _) => 0
                                         case Again(_, _, _) => AgainRun(x.wire) + 1
                                         case _ => AgainRun(x.wire))
    ensures LastFresh(r.wire) == if w.Fresh? then Some(w.payload) else LastFresh(x.wire)
  {
    var r := x.wire + [w];
    assert r[..|r| - 1] == x.wire;
    assert forall k :: 0 <= k < |x.wire| ==> r[..k] == x.wire[..k];
    x.(wire := r)
  }

  // ---------------------------------------------------------------- sender invariant

  predicate Sound(x: Sender) {
    && WireOk(x.wire)
    && x.attempts <= MAX_RETRANSMIT
    && (x.awaiting <==> x.last != [])
    && (x.awaiting ==> AgainRun(x.wire) == x.attempts && LastFresh(x.wire) == Some(x.last)
                       && |x.last| + HEADER_LEN < PACKET_CAPACITY)
  }

  // ---------------------------------------------------------------- operations

  function Transmit(x: Sender, p: Data, now: u32): (r: Sender)
    ensures Sound(x) && p != [] ==> Sound(r)
    ensures r.tcp == x.tcp && r.socket == x.socket && r.seqNr == x.seqNr && r.ackNr == x.ackNr
    ensures r.awaiting ==> x.awaiting || x.tcp == Established
  {
    if x.tcp != Established || |p| + HEADER_LEN >= PACKET_CAPACITY then x
    else
      var y := Put(x, Fresh(x.seqNr, x.ackNr, p));
      if p == [] then y
      else y.(last := p, expected := (x.seqNr + |p|) % TWO32, awaiting := true, attempts := 0, lastTx := now)
  }

  /** Adds the V2GTP header and sends; an EXI body that does not fit the payload buffer is not sent. */
  function SendFrame(x: Sender, exi: Data, now: u32): (r: Sender)
    ensures Sound(x) ==> Sound(r)
    ensures r.tcp == x.tcp && r.socket == x.socket && r.seqNr == x.seqNr && r.ackNr == x.ackNr
    ensures r.awaiting ==> x.awaiting || x.tcp == Established
  {
    if |exi| + V2gtp.HEADER >= V2gtp.TX_CAPACITY then x
    else if x.socket then Put(x, Socketed(V2gtp.Frame(exi)))
    else Transmit(x, V2gtp.Frame(exi), now)
  }

  function Retransmit(x: Sender, now: u32): Sender {
    if !x.awaiting || x.last == [] || |x.last| + HEADER_LEN >= PACKET_CAPACITY then x
    else Put(x, Again(x.seqNr, x.ackNr, x.last)).(lastTx := now)
  }

  function ClearPending(x: Sender): Sender {
    x.(awaiting := false, last := [], expected := 0, attempts := 0)
  }

  /** The acknowledgement half of an inbound segment. */
  function OnAck(x: Sender, remoteAck: u32): Sender {
    var y := x.(seqNr := remoteAck);
    if x.awaiting && remoteAck >= x.expected then y.(awaiting := false, last := [], attempts := 0) else y
  }

  /** One timer-driven retransmission, as `tcp_tick` performs it. */
  lemma RetrySound(x: Sender, now: u32)
    requires Sound(x) && x.awaiting && x.attempts < MAX_RETRANSMIT
    ensures var y := Retransmit(x.(attempts := x.attempts + 1), now);
            && Sound(y) && y.awaiting && y.last == x.last && y.lastTx == now
            && y.wire == x.wire + [Again(x.seqNr, x.ackNr, x.last)]
            && y == x.(attempts := x.attempts + 1, wire := y.wire, lastTx := now)
  {
  }

  // ---------------------------------------------------------------- the unit

  /** The sender's globals. `payload` is the payload being sent, `lastPayload` the one not yet
      acknowledged. */
  class SenderUnit {
    var tcpState: TcpState
    var socketSender: bool
    var evccTcpPort: u16
    var seqNr: u32
    var ackNr: u32
    var awaitingAck: bool
    var expectedAckNr: u32
    const payload: array<byte>
    var payloadLen: byte
    const lastPayload: array<byte>
    var lastPayloadLen: byte
    var lastTxTimestamp: u32
    var retransmitAttempts: byte
    ghost var wire: seq<Wire>

    ghost predicate Valid()
      reads this
    {
      && payload.Length == V2gtp.TX_CAPACITY && lastPayload.Length == V2gtp.TX_CAPACITY
      && payload != lastPayload
      && payloadLen <= V2gtp.TX_CAPACITY && lastPayloadLen <= V2gtp.TX_CAPACITY
    }

    ghost function State(): (x: Sender)
      requires Valid()
      reads this, lastPayload
    {
      Sender(tcpState, socketSender, evccTcpPort, seqNr, ackNr, awaitingAck, expectedAckNr,
             lastPayload[..lastPayloadLen], lastTxTimestamp, retransmitAttempts, wire)
    }

    constructor ()
      ensures Valid() && fresh(payload) && fresh(lastPayload)
      ensures State() == Sender(Closed, false, 0, 0, 0, false, 0, [], 0, 0, [])
    {
      tcpState, socketSender, evccTcpPort := Closed, false, 0;
      seqNr, ackNr, awaitingAck, expectedAckNr := 0, 0, false, 0;
      payload := new byte[V2gtp.TX_CAPACITY](_ => 0);
      lastPayload := new byte[V2gtp.TX_CAPACITY](_ => 0);
      payloadLen, lastPayloadLen, lastTxTimestamp, retransmitAttempts := 0, 0, 0, 0;
      wire := [];
    }

    /** tcp_transmit: what lies in `payload` goes out as new data. */
    method TransmitPayload(now: u32)
      requires Valid()
      modifies this, lastPayload
      ensures Valid() && State() == Transmit(old(State()), old(payload[..payloadLen]), now)
    {
      if tcpState == Established {
        if payloadLen + HEADER_LEN < PACKET_CAPACITY {
          wire := wire + [Fresh(seqNr, ackNr, payload[..payloadLen])];
          if payloadLen > 0 {
            Remember(now);
          }
        }
      }
    }

    /** What was just sent awaits its acknowledgement. */
    method Remember(now: u32)
      requires Valid()
      modifies this`lastPayloadLen, this`expectedAckNr, this`awaitingAck, this`retransmitAttempts,
               this`lastTxTimestamp, lastPayload
      ensures Valid()
      ensures State() == old(State()).(last := payload[..payloadLen], expected := (seqNr + payloadLen) % TWO32,
                                       awaiting := true, attempts := 0, lastTx := now)
    {
      CopyInto(lastPayload, 0, payload[..payloadLen]);
      lastPayloadLen := payloadLen;
      assert lastPayload[..lastPayloadLen] == lastPayload[0..0 + payloadLen];
      expectedAckNr := (seqNr + payloadLen) % TWO32;
      awaitingAck := true;
      retransmitAttempts := 0;
      lastTxTimestamp := now;
    }

    /** Header and body of an outgoing frame, in place. */
    method BuildFrame(exi: Data)
      requires Valid() && |exi| + V2gtp.HEADER < V2gtp.TX_CAPACITY
      modifies this`payloadLen, payload
      ensures Valid() && State() == old(State())
      ensures payload[..payloadLen] == V2gtp.Frame(exi)
    {
      payload[0], payload[1], payload[2], payload[3] := 0x01, 0xFE, 0x80, 0x01;
      payload[4], payload[5], payload[6], payload[7] := 0, 0, |exi| / 256, |exi| % 256;
      assert payload[..8] == [0x01, 0xFE, 0x80, 0x01, 0, 0, |exi| / 256, |exi| % 256];
      CopyInto(payload, V2gtp.HEADER, exi);
      payloadLen := V2gtp.HEADER + |exi|;
      assert payload[..payloadLen] == payload[..8] + payload[8..8 + |exi|];
      HeaderBytes(payload[..payloadLen], exi);
    }

    /** addV2GTPHeaderAndTransmit; what it leaves in `payload` when the body does not fit is never sent. */
    method AddHeaderAndTransmit(exi: Data, now: u32)
      requires Valid()
      modifies this, payload, lastPayload
      ensures Valid() && State() == SendFrame(old(State()), exi, now)
    {
      if |exi| + V2gtp.HEADER < V2gtp.TX_CAPACITY {
        BuildFrame(exi);
        if socketSender {
          wire := wire + [Socketed(payload[..payloadLen])];
        } else {
          TransmitPayload(now);
        }
      }
    }

    /** tcp_retransmitPendingPayload. */
    method RetransmitPending(now: u32)
      requires Valid()
      modifies this, payload
      ensures Valid() && State() == Retransmit(old(State()), now)
    {
      if !awaitingAck || lastPayloadLen == 0 {
        return;
      }
      if lastPayloadLen + HEADER_LEN >= PACKET_CAPACITY {
        return;
      }
      payloadLen := lastPayloadLen;
      CopyInto(payload, 0, lastPayload[..lastPayloadLen]);
      assert payload[0..0 + lastPayloadLen] == payload[..payloadLen];
      wire := wire + [Again(seqNr, ackNr, payload[..payloadLen])];
      lastTxTimestamp := now;
    }

    method SendAck()
      requires Valid()
      modifies this
      ensures Valid() && State() == Put(old(State()), AckSent(old(seqNr), old(ackNr)))
    {
      payloadLen := 0;
      wire := wire + [AckSent(seqNr, ackNr)];
    }

    method SendFirstAck()
      requires Valid()
      modifies this
      ensures Valid() && State() == Put(old(State()), SynAckSent(old(seqNr), old(ackNr)))
    {
      payloadLen := 0;
      wire := wire + [SynAckSent(seqNr, ackNr)];
    }

    /** Numbers of the next segment, and an acknowledgement that carries them. */
    method AcknowledgeUpTo(nextSeq: u32, upTo: u32)
      requires Valid()
      modifies this
      ensures Valid()
      ensures State() == Put(old(State()).(ackNr := upTo, seqNr := nextSeq), AckSent(nextSeq, upTo))
    {
      hide WireOk, AgainRun, LastFresh, MayFollow;
      ackNr := upTo;
      seqNr := nextSeq;
      SendAck();
    }

    /** The answer to a connection request. */
    method AnswerSyn(port: u16, firstSeq: u32, upTo: u32)
      requires Valid()
      modifies this
      ensures Valid()
      ensures State() == Put(old(State()).(peerPort := port, seqNr := firstSeq, ackNr := upTo, tcp := SynAck),
                             SynAckSent(firstSeq, upTo))
    {
      hide WireOk, AgainRun, LastFresh, MayFollow;
      evccTcpPort := port;
      seqNr := firstSeq;
      ackNr := upTo;
      tcpState := SynAck;
      SendFirstAck();
    }

    method ForgetPending()
      requires Valid()
      modifies this
      ensures Valid() && State() == ClearPending(old(State()))
    {
      awaitingAck := false;
      lastPayloadLen := 0;
      expectedAckNr := 0;
      retransmitAttempts := 0;
    }

    /** The acknowledgement half of evaluateTcpPacket. */
    method TakeAck(remoteAck: u32)
      requires Valid()
      modifies this
      ensures Valid() && State() == OnAck(old(State()), remoteAck)
    {
      seqNr := remoteAck;
      if awaitingAck && remoteAck >= expectedAckNr {
        awaitingAck := false;
        lastPayloadLen := 0;
        retransmitAttempts := 0;
      }
    }
  }

  /** The eight header bytes and the body are exactly the V2GTP frame. */
  lemma HeaderBytes(b: Data, exi: Data)
    requires |exi| < 0x1_0000 && |b| == V2gtp.HEADER + |exi| && b[8..] == exi
    requires b[..8] == [0x01, 0xFE, 0x80, 0x01, 0, 0, |exi| / 256, |exi| % 256]
    ensures b == V2gtp.Frame(exi)
  {
    var n := |exi|;
    assert n % 0x1_0000 == n && n / 0x1_0000 == 0;
    assert PutBe16(V2gtp.EXI_TYPE) == [0x80, 0x01];
    assert PutBe32(n) == [0, 0] + [n / 256, n % 256];
    assert b == b[..8] + b[8..];
  }
}
