/** The sender of src/tcp.cpp against a peer: segments and acknowledgements travel through two queues that
    keep their order and may lose anything. The peer acknowledges cumulatively, and asks its next question
    only after the answer to the previous one has arrived, or again when question or answer came to
    nothing. Sequence numbers of a run stay below 2^32. */
module StopAndWait {
  import opened Bytes
  import opened TcpSender
  import opened Hlc
  import opened TcpLink
  import opened HlcAnswers
  import V2gtp

  /** Towards the peer: a data segment. Towards the station: an acknowledgement, possibly of a request. */
  datatype Down = Down(seqNr: nat, payload: Data)
  datatype Up = Up(ack: nat, request: bool)

  /** `rcv` is the sequence number the peer expects next, `asked` the acknowledgement number of its
      latest request, `got` what it received in order. */
  datatype Net = Net(x: Sender, down: seq<Down>, up: seq<Up>, rcv: nat, asked: int, got: seq<Data>)

  datatype NetEvent =
    | Ask
    | LoseDown(k: nat)
    | LoseUp(k: nat)
    | Arrive
    | Hear(answer: Option<Data>, segEnd: u32, now: u32)
    | Timer(now: u32)

  // ---------------------------------------------------------------- one inbound request

  /** Handling of one data segment that acknowledges a: it is acknowledged, answered at most once, and
      its own acknowledgement number is looked at last. */
  function Receive(x: Sender, a: u32, segEnd: u32, answer: Option<Data>, now: u32): Sender {
    OnAck(Respond(Acknowledge(x, a, segEnd), answer, now), a)
  }

  function Acknowledge(x: Sender, a: u32, segEnd: u32): Sender {
    Put(x.(ackNr := segEnd, seqNr := a), AckSent(a, segEnd))
  }

  function Respond(x: Sender, answer: Option<Data>, now: u32): Sender {
    if answer.Some? then Transmit(x, answer.value, now) else x
  }

  /** The answer to one frame as a payload: what fits behind the V2GTP header. */
  function PayloadOf(enc: Option<Data>): Option<Data> {
    if enc.Some? && |enc.value| + V2gtp.HEADER < V2gtp.TX_CAPACITY then Some(V2gtp.Frame(enc.value)) else None
  }

  lemma SentIsResponse(x: Sender, enc: Option<Data>, now: u32)
    requires !x.socket
    ensures SentBy(x, enc, now) == Respond(x, PayloadOf(enc), now)
  {
    hide Transmit, V2gtp.Frame;
  }

  /** On the raw path, past the handshake, this is what the receiver does with a segment that completes at most
      one frame, unless the frame is one of the two kinds that are not answered just once. */
  lemma SegmentIsReceived(t: State, s: Seg, o: Oracle, openBefore: bool) returns (answer: Option<Data>)
    requires 0 < |s.payload| < V2gtp.RX_CAPACITY && s.ack && !s.fin
    requires !t.tx.socket && t.phase != ForAppProtocol
    requires var d := V2gtp.Feed(t.rx, s.payload); d.end == V2gtp.Pending && |d.frames| <= 1
    requires var u := Decode(t, o(0).d); !AnsweredTwice(u) && !(u.protocol == Iso2 && Refuses(u))
    ensures OnEstablished(t, s, o, openBefore).tx ==
            Receive(t.tx, s.ackNr, (s.seqNr + |s.payload|) % TWO32, answer, o(0).e.now)
  {
    hide V2gtp.Feed, AnsweredTwice, Refuses, Acknowledge, BufferPayload, OnAck, Respond, OnEstablished, Decode;
    var x := Acknowledge(t.tx, s.ackNr, (s.seqNr + |s.payload|) % TWO32);
    Acknowledged(t.tx, s.ackNr, (s.seqNr + |s.payload|) % TWO32);
    SenderApart(t, x, o(0).d);
    answer := PayloadSent(t.(tx := x), s.payload, o, openBefore);
    EstablishedData(t, s, o, openBefore);
  }

  lemma Acknowledged(x: Sender, a: u32, segEnd: u32)
    ensures Acknowledge(x, a, segEnd).socket == x.socket
  {
  }

  /** Which answers a frame has does not depend on the sender. */
  lemma SenderApart(t: State, x: Sender, d: Decoded)
    ensures var u, v := Decode(t, d), Decode(t.(tx := x), d);
            AnsweredTwice(u) == AnsweredTwice(v) && Refuses(u) == Refuses(v) && u.protocol == v.protocol
  {
    hide AnsweredTwice, Refuses, Decode;
    DecodeApart(t, x, d);
    SameTwice(Decode(t, d), Decode(t.(tx := x), d));
  }

  lemma DecodeApart(t: State, x: Sender, d: Decoded)
    ensures Decode(t.(tx := x), d) == Decode(t, d).(tx := x)
    ensures Decode(t, d).tx == t.tx
  {
    var s := t.(rx := []);
    if t.phase == ForAppProtocol {
      assert Decode(t, d) == s;
    } else if t.protocol == Iso2 {
      assert Decode(t, d) == s.(isoDoc := d.iso);
    } else {
      assert Decode(t, d) == s.(dinDoc := d.din);
    }
  }

  lemma SameTwice(u: State, v: State)
    requires u == v.(tx := u.tx)
    ensures AnsweredTwice(u) == AnsweredTwice(v) && Refuses(u) == Refuses(v)
  {
  }

  lemma EstablishedData(t: State, s: Seg, o: Oracle, openBefore: bool)
    requires 0 < |s.payload| < V2gtp.RX_CAPACITY && s.ack && !s.fin
    ensures OnEstablished(t, s, o, openBefore).tx ==
            OnAck(BufferPayload(t.(tx := Acknowledge(t.tx, s.ackNr, (s.seqNr + |s.payload|) % TWO32)), s.payload,
                                o, openBefore).tx, s.ackNr)
  {
    hide BufferPayload, OnAck, Put;
  }

  lemma PayloadSent(t: State, payload: Data, o: Oracle, openBefore: bool) returns (answer: Option<Data>)
    requires payload != [] && !t.tx.socket && t.phase != ForAppProtocol
    requires var d := V2gtp.Feed(t.rx, payload); d.end == V2gtp.Pending && |d.frames| <= 1
    requires var u := Decode(t, o(0).d); !AnsweredTwice(u) && !(u.protocol == Iso2 && Refuses(u))
    ensures BufferPayload(t, payload, o, openBefore).tx == Respond(t.tx, answer, o(0).e.now)
  {
    hide OnFrame, V2gtp.Deframe, V2gtp.Accept, ResetSession, AnsweredTwice, Refuses, Decode;
    var d := V2gtp.Feed(t.rx, payload);
    FirstFrames(t, o);
    if d.frames == [] {
      answer := None;
    } else {
      answer := FrameSent(t, o(0).d, o(0).e);
    }
  }

  lemma FirstFrames(t: State, o: Oracle)
    ensures OnFrames(t, 0, o) == t && OnFrames(t, 1, o) == OnFrame(t, o(0).d, o(0).e)
  {
    hide OnFrame;
    assert OnFrames(t, 1, o) == OnFrame(OnFrames(t, 0, o), o(0).d, o(0).e);
  }

  lemma FrameSent(t: State, d: Decoded, e: Env) returns (answer: Option<Data>)
    requires !t.tx.socket && t.phase != ForAppProtocol
    requires var u := Decode(t, d); !AnsweredTwice(u) && !(u.protocol == Iso2 && Refuses(u))
    ensures OnFrame(t, d, e).tx == Respond(t.tx, answer, e.now)
  {
    hide Dialogue, AnsweredTwice, Refuses, Answers, SentBy, Respond;
    var u := Decode(t, d);
    if d.ok {
      AnsweredOnce(u, d, e);
      SentIsResponse(t.tx, FirstEnc(Answers(u), e), e.now);
      answer := PayloadOf(FirstEnc(Answers(u), e));
    } else {
      answer := None;
      NoResponse(t.tx, e.now);
    }
  }

  lemma NoResponse(x: Sender, now: u32)
    ensures Respond(x, None, now) == x
  {
  }

  /** A payload the sender is able to transmit. */
  predicate Sendable(x: Sender, answer: Option<Data>) {
    x.tcp == Established && answer.Some? && answer.value != [] && |answer.value| + HEADER_LEN < PACKET_CAPACITY
  }

  /** The request's own acknowledgement leaves the answer it triggered pending exactly when the answer's
      end does not wrap around 2^32. */
  lemma OwnAckSparesAnswerExactly(x: Sender, a: u32, segEnd: u32, answer: Option<Data>, now: u32)
    requires Sendable(x, answer)
    ensures Receive(x, a, segEnd, answer, now).awaiting <==> a + |answer.value| < TWO32
  {
  }

  lemma ReceiveAnswer(x: Sender, a: u32, e: u32, p: Option<Data>, now: u32)
    requires Sendable(x, p) && a + |p.value| < TWO32
    ensures var r := Receive(x, a, e, p, now);
            && r.wire == x.wire + [AckSent(a, e), Fresh(a, e, p.value)]
            && r.last == p.value && r.awaiting && r.seqNr == a && r.tcp == x.tcp
  {
  }

  /** Why requests must not be repeated once answered: a second answer to the same request takes the
      sequence number of the first, which is forgotten. */
  lemma RepeatedRequestOverwrites(x: Sender, a: u32, e: u32, p: Option<Data>, q: Option<Data>, now: u32)
    requires Sendable(x, p) && Sendable(x, q) && a + |p.value| < TWO32 && a + |q.value| < TWO32
    ensures var r := Receive(Receive(x, a, e, p, now), a, e, q, now);
            && r.wire == x.wire + [AckSent(a, e), Fresh(a, e, p.value), AckSent(a, e), Fresh(a, e, q.value)]
            && r.last == q.value && r.awaiting && r.seqNr == a
  {
    hide Receive;
    ReceiveAnswer(x, a, e, p, now);
    ReceiveAnswer(Receive(x, a, e, p, now), a, e, q, now);
  }

  // ---------------------------------------------------------------- the network

  /** Data segments among wire entries. */
  function OnWire(w: seq<Wire>): seq<Down> {
    if w == [] then []
    else (match w[0]
          case Fresh(q, _, p) => [Down(q, p)]
          case Again(q, _, p) => [Down(q, p)]
          case _ => []) + OnWire(w[1..])
  }

  /** Payloads in the order of their first transmission. */
  function Sent(w: seq<Wire>): seq<Data> {
    if w == [] then []
    else Sent(w[..|w| - 1]) + (match w[|w| - 1] case Fresh(_, _, p) => [p] case _ => [])
  }

  /** The station acts; what it newly puts on the wire enters the queue to the peer. */
  function Station(n: Net, y: Sender): Net
    requires |n.x.wire| <= |y.wire|
  {
    n.(x := y, down := n.down + OnWire(y.wire[|n.x.wire|..]))
  }

  predicate Possible(n: Net, ev: NetEvent) {
    match ev
    case Ask => n.asked < n.rcv
    case LoseDown(k) => k < |n.down|
    case LoseUp(k) => k < |n.up|
    case Arrive => n.down != []
    case Hear(answer, _, _) =>
      && n.up != [] && n.up[0].ack < TWO32
      && (answer.Some? ==> answer.value != [] && n.up[0].ack + |answer.value| < TWO32)
    case Timer(_) => n.x.awaiting && n.x.attempts < MAX_RETRANSMIT
  }

  function Heard(x: Sender, u: Up, answer: Option<Data>, segEnd: u32, now: u32): (y: Sender)
    requires u.ack < TWO32
    ensures |x.wire| <= |y.wire|
  {
    if u.request then Receive(x, u.ack, segEnd, answer, now) else OnAck(x, u.ack)
  }

  function NetStep(n: Net, ev: NetEvent): Net
    requires Possible(n, ev)
  {
    match ev
    case Ask => n.(up := n.up + [Up(n.rcv, true)], asked := n.rcv)
    case LoseDown(k) => n.(down := n.down[..k] + n.down[k + 1..])
    case LoseUp(k) =>
      n.(up := n.up[..k] + n.up[k + 1..], asked := if n.up[k].request then n.up[k].ack - 1 else n.asked)
    case Arrive =>
      var s := n.down[0];
      var rcv := if s.seqNr == n.rcv then n.rcv + |s.payload| else n.rcv;
      n.(down := n.down[1..], rcv := rcv, up := n.up + [Up(rcv, false)],
         got := if s.seqNr == n.rcv then n.got + [s.payload] else n.got)
    case Hear(answer, segEnd, now) =>
      var u := n.up[0];
      var m := Station(n, Heard(n.x, u, answer, segEnd, now)).(up := n.up[1..]);
      if u.request && !Sendable(n.x, answer) then m.(asked := u.ack - 1) else m
    case Timer(now) => Station(n, Retransmit(n.x.(attempts := n.x.attempts + 1), now))
  }

  predicate Valid(n: Net, es: seq<NetEvent>)
    decreases |es|, 0
  {
    es == [] || (Valid(n, es[..|es| - 1]) && Possible(NetRun(n, es[..|es| - 1]), es[|es| - 1]))
  }

  function NetRun(n: Net, es: seq<NetEvent>): Net
    requires Valid(n, es)
    decreases |es|, 1
  {
    if es == [] then n else NetStep(NetRun(n, es[..|es| - 1]), es[|es| - 1])
  }

  /** Right after the handshake: nothing sent yet, the peer expects the number after the SYN's. */
  predicate JustOpened(n: Net) {
    && n.x.tcp == Established && !n.x.awaiting && n.x.last == [] && n.x.attempts == 0
    && (forall k :: 0 <= k < |n.x.wire| ==> n.x.wire[k].SynAckSent? || n.x.wire[k].AckSent?)
    && n.down == [] && n.up == [] && n.got == []
    && n.rcv == n.x.seqNr + 1 && n.asked < n.rcv
  }

  // ---------------------------------------------------------------- invariant

  /** The sequence number of the latest first transmission. */
  function LastSeq(w: seq<Wire>): Option<u32> {
    if w == [] then None
    else match w[|w| - 1]
      case Fresh(q, _, _) => Some(q)
      case _ => LastSeq(w[..|w| - 1])
  }

  /** Every retransmission carries the sequence number of the latest first transmission. */
  predicate SameSeq(w: seq<Wire>) {
    forall k :: 0 <= k < |w| && w[k].Again? ==> LastSeq(w[..k]) == Some(w[k].seqNr)
  }

  predicate SenderOk(x: Sender) {
    && TcpSender.Sound(x) && x.tcp == Established && SameSeq(x.wire)
    && (x.awaiting ==> x.expected == x.seqNr + |x.last| && LastSeq(x.wire) == Some(x.seqNr))
  }

  /** Every acknowledgement under way is one the sender can make sense of. */
  predicate UpOk(n: Net) {
    && (forall i :: 0 <= i < |n.up| ==>
          if n.x.awaiting then n.up[i].ack == n.rcv || n.up[i].ack == n.x.seqNr
          else n.up[i].ack == n.rcv)
    && (forall i, j :: 0 <= i < j < |n.up| ==> n.up[i].ack <= n.up[j].ack)
  }

  /** At most one request is under way; it is the latest, and acknowledges what is pending. */
  predicate AskOk(n: Net) {
    && n.asked <= n.rcv
    && (forall i :: 0 <= i < |n.up| && n.up[i].request ==>
          n.up[i].ack == n.asked && (n.x.awaiting ==> n.up[i].ack == n.x.expected))
    && (forall i, j :: 0 <= i < j < |n.up| ==> !(n.up[i].request && n.up[j].request))
    && (n.x.awaiting ==> n.asked >= n.x.seqNr)
  }

  /** Data under way is the pending payload or already received. */
  predicate DownOk(n: Net) {
    forall i :: 0 <= i < |n.down| ==>
      && n.down[i].payload != []
      && (|| (n.x.awaiting && n.down[i] == Down(n.x.seqNr, n.x.last))
          || n.down[i].seqNr + |n.down[i].payload| <= n.rcv)
  }

  /** The pending payload has not arrived yet. */
  predicate Missing(n: Net) {
    n.x.awaiting && n.rcv == n.x.seqNr
  }

  predicate GotOk(n: Net) {
    && (n.x.awaiting ==> n.rcv == n.x.seqNr || n.rcv == n.x.expected)
    && Sent(n.x.wire) == (if Missing(n) then n.got + [n.x.last] else n.got)
  }

  predicate Ok(n: Net) {
    SenderOk(n.x) && UpOk(n) && AskOk(n) && DownOk(n) && GotOk(n)
  }

  // ---------------------------------------------------------------- wire bookkeeping

  lemma PutMeans(w: seq<Wire>, e: Wire)
    ensures Sent(w + [e]) == Sent(w) + (if e.Fresh? then [e.payload] else [])
    ensures LastSeq(w + [e]) == if e.Fresh? then Some(e.seqNr) else LastSeq(w)
    ensures SameSeq(w) && (e.Again? ==> LastSeq(w) == Some(e.seqNr)) ==> SameSeq(w + [e])
    ensures OnWire([e]) == if e.Fresh? || e.Again? then [Down(e.seqNr, e.payload)] else []
    ensures (w + [e])[|w|..] == [e]
  {
    var v := w + [e];
    assert v[..|v| - 1] == w;
    assert forall k :: 0 <= k < |w| ==> v[..k] == w[..k];
  }

  /** What hearing a request does to the sender. */
  lemma ReceiveEffect(x: Sender, a: u32, segEnd: u32, answer: Option<Data>, now: u32)
    requires SenderOk(x) && (x.awaiting ==> a == x.expected)
    requires answer.Some? ==> answer.value != [] && a + |answer.value| < TWO32
    ensures var y := Receive(x, a, segEnd, answer, now);
            && SenderOk(y)
            && (y.awaiting <==> Sendable(x, answer))
            && (y.awaiting ==> y.seqNr == a && y.last == answer.value)
            && |x.wire| <= |y.wire|
            && OnWire(y.wire[|x.wire|..]) == (if y.awaiting then [Down(a, y.last)] else [])
            && Sent(y.wire) == Sent(x.wire) + (if y.awaiting then [y.last] else [])
  {
    hide SameSeq, Sent, LastSeq, OnWire;
    var w := Acknowledge(x, a, segEnd);
    PutMeans(x.wire, AckSent(a, segEnd));
    AcknowledgeOk(x, a, segEnd);
    if Sendable(x, answer) {
      var e := Fresh(a, segEnd, answer.value);
      PutMeans(w.wire, e);
      var y := Receive(x, a, segEnd, answer, now);
      assert y.wire == w.wire + [e];
      TwoEntries(x.wire, AckSent(a, segEnd), e);
    } else {
      ClearedOk(w, a);
    }
  }

  lemma AcknowledgeOk(x: Sender, a: u32, segEnd: u32)
    requires SenderOk(x)
    ensures var w := Acknowledge(x, a, segEnd);
            && TcpSender.Sound(w) && SameSeq(w.wire) && w.tcp == Established
            && w.awaiting == x.awaiting && w.expected == x.expected && w.last == x.last
            && w.seqNr == a && w.ackNr == segEnd && w.wire == x.wire + [AckSent(a, segEnd)]
  {
    PutMeans(x.wire, AckSent(a, segEnd));
  }

  lemma ClearedOk(w: Sender, a: u32)
    requires TcpSender.Sound(w) && (w.awaiting ==> a == w.expected)
    ensures !OnAck(w, a).awaiting && TcpSender.Sound(OnAck(w, a))
  {
  }

  lemma TwoEntries(w: seq<Wire>, d: Wire, e: Wire)
    requires d.AckSent?
    ensures OnWire((w + [d] + [e])[|w|..]) == OnWire([e])
  {
    assert (w + [d] + [e])[|w|..] == [d, e];
    assert [d, e][1..] == [e];
    assert OnWire([d, e]) == [] + OnWire([e]);
  }

  /** What a retransmission does to the sender. */
  lemma TimerEffect(x: Sender, now: u32)
    requires SenderOk(x) && x.awaiting && x.attempts < MAX_RETRANSMIT
    ensures var y := Retransmit(x.(attempts := x.attempts + 1), now);
            && SenderOk(y) && y.awaiting && y.seqNr == x.seqNr && y.expected == x.expected && y.last == x.last
            && |x.wire| <= |y.wire| && OnWire(y.wire[|x.wire|..]) == [Down(x.seqNr, x.last)]
            && Sent(y.wire) == Sent(x.wire)
  {
    hide SameSeq, Sent, LastSeq, OnWire;
    RetrySound(x, now);
    PutMeans(x.wire, Again(x.seqNr, x.ackNr, x.last));
  }

  // ---------------------------------------------------------------- preservation

  lemma AskKeeps(n: Net)
    requires Ok(n) && Possible(n, Ask)
    ensures Ok(NetStep(n, Ask))
  {
    hide SenderOk, Sent;
  }

  lemma LoseKeeps(n: Net, ev: NetEvent)
    requires Ok(n) && Possible(n, ev) && (ev.LoseDown? || ev.LoseUp?)
    ensures Ok(NetStep(n, ev))
  {
    hide SameSeq, Sent, LastSeq;
  }

  lemma ArriveKeeps(n: Net)
    requires Ok(n) && Possible(n, Arrive)
    ensures Ok(NetStep(n, Arrive))
  {
    hide SameSeq, Sent, LastSeq;
  }

  lemma HearRequestKeeps(n: Net, answer: Option<Data>, segEnd: u32, now: u32)
    requires Ok(n) && Possible(n, Hear(answer, segEnd, now)) && n.up[0].request
    ensures Ok(NetStep(n, Hear(answer, segEnd, now)))
  {
    hide SameSeq, Sent, LastSeq, OnWire, Receive;
    ReceiveEffect(n.x, n.up[0].ack, segEnd, answer, now);
  }

  lemma HearAckKeeps(n: Net, answer: Option<Data>, segEnd: u32, now: u32)
    requires Ok(n) && Possible(n, Hear(answer, segEnd, now)) && !n.up[0].request
    ensures Ok(NetStep(n, Hear(answer, segEnd, now)))
  {
    hide SameSeq, Sent, LastSeq;
  }

  lemma TimerKeeps(n: Net, now: u32)
    requires Ok(n) && Possible(n, Timer(now))
    ensures Ok(NetStep(n, Timer(now)))
  {
    hide SameSeq, Sent, LastSeq, OnWire, Retransmit;
    TimerEffect(n.x, now);
  }

  lemma NetStepKeeps(n: Net, ev: NetEvent)
    requires Ok(n) && Possible(n, ev)
    ensures Ok(NetStep(n, ev))
  {
    hide Ok, NetStep;
    match ev
    case Ask => AskKeeps(n);
    case LoseDown(_) => LoseKeeps(n, ev);
    case LoseUp(_) => LoseKeeps(n, ev);
    case Arrive => ArriveKeeps(n);
    case Hear(answer, segEnd, now) =>
      if n.up[0].request {
        HearRequestKeeps(n, answer, segEnd, now);
      } else {
        HearAckKeeps(n, answer, segEnd, now);
      }
    case Timer(now) => TimerKeeps(n, now);
  }

  lemma {:induction false} QuietWire(w: seq<Wire>)
    requires forall k :: 0 <= k < |w| ==> w[k].SynAckSent? || w[k].AckSent?
    ensures Sent(w) == [] && SameSeq(w) && WireOk(w)
  {
    if w != [] {
      QuietWire(w[..|w| - 1]);
    }
  }

  lemma {:induction false} NetRunOk(n: Net, es: seq<NetEvent>)
    requires JustOpened(n) && Valid(n, es)
    ensures Ok(NetRun(n, es))
  {
    if es == [] {
      QuietWire(n.x.wire);
    } else {
      hide Ok, NetStep, Possible, JustOpened;
      NetRunOk(n, es[..|es| - 1]);
      NetStepKeeps(NetRun(n, es[..|es| - 1]), es[|es| - 1]);
    }
  }

  // ---------------------------------------------------------------- the protocol's promises

  /** In every run, whatever is lost: what the peer has received is exactly what was sent, once each and
      in order, short at most of the one payload still pending. */
  lemma DeliveredOnceInOrder(n: Net, es: seq<NetEvent>)
    requires JustOpened(n) && Valid(n, es)
    ensures var m := NetRun(n, es);
            Sent(m.x.wire) == m.got || (m.x.awaiting && Sent(m.x.wire) == m.got + [m.x.last])
  {
    hide SenderOk, UpOk, AskOk, DownOk;
    NetRunOk(n, es);
  }

  /** In every run a pending payload ends where the acknowledgement is expected, and every retransmission
      repeats sequence number and bytes of the first transmission. */
  lemma RetransmissionsRepeat(n: Net, es: seq<NetEvent>, k: nat)
    requires JustOpened(n) && Valid(n, es)
    ensures var m := NetRun(n, es);
            && (m.x.awaiting ==> m.x.expected == m.x.seqNr + |m.x.last|)
            && (k < |m.x.wire| && m.x.wire[k].Again? ==>
                  && LastFresh(m.x.wire[..k]) == Some(m.x.wire[k].payload)
                  && LastSeq(m.x.wire[..k]) == Some(m.x.wire[k].seqNr))
  {
    hide UpOk, AskOk, DownOk, GotOk;
    NetRunOk(n, es);
    var w := NetRun(n, es).x.wire;
    if k < |w| {
      assert MayFollow(w[..k], w[k]);
    }
  }

  /** In every run an acknowledgement clears the pending payload exactly when the peer has received it
      and says so, and an answered request leaves its answer pending. */
  lemma ClearedOnlyWhenReceived(n: Net, es: seq<NetEvent>, answer: Option<Data>, segEnd: u32, now: u32)
    requires JustOpened(n) && Valid(n, es) && Possible(NetRun(n, es), Hear(answer, segEnd, now))
    ensures var m := NetRun(n, es); var r := NetStep(m, Hear(answer, segEnd, now));
            && (!m.up[0].request && m.x.awaiting ==>
                  (r.x.awaiting <==> m.up[0].ack < m.x.expected)
                  && (!r.x.awaiting ==> m.rcv == m.x.expected && m.got == Sent(m.x.wire)))
            && (m.up[0].request && Sendable(m.x, answer) ==> r.x.awaiting && r.x.last == answer.value)
  {
    hide Sent, SameSeq, LastSeq, OnWire, Receive;
    NetRunOk(n, es);
    var m := NetRun(n, es);
    if m.up[0].request {
      ReceiveEffect(m.x, m.up[0].ack, segEnd, answer, now);
    }
  }
}
