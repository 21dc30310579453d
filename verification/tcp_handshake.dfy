/** Connections over whole runs: which segments open, confirm and end one, with which numbers they are
    answered, and that every connection answer on the wire stands for a SYN that met a closed connection. */
module TcpHandshake {
  import opened Bytes
  import opened DcCan
  import opened IsoWatchdog
  import opened TcpSender
  import opened Hlc
  import opened TcpLink
  import opened HlcSafety
  import opened HlcFindings
  import opened HlcAnswers
  import opened TcpTransport
  import StopAndWait
  import V2gtp

  /** The connection answers among wire entries, oldest first. */
  function SynAcks(w: seq<Wire>): seq<Wire> {
    if w == [] then []
    else SynAcks(w[..|w| - 1]) + (if w[|w| - 1].SynAckSent? then [w[|w| - 1]] else [])
  }

  /** A connection that is not established has no payload pending. */
  predicate Settled(x: Sender) {
    x.tcp != Established ==> !x.awaiting && x.attempts == 0
  }

  /** Number of payloads that went out over TCP, first transmissions and repetitions. */
  function Sendings(w: seq<Wire>): nat {
    if w == [] then 0
    else Sendings(w[..|w| - 1]) + (if w[|w| - 1].Fresh? || w[|w| - 1].Again? then 1 else 0)
  }

  /** A pending payload was last sent at `now`, if any was sent from x to y, and else when it was in x. */
  predicate SentAt(x: Sender, y: Sender, now: u32) {
    var before, after := Sendings(x.wire), Sendings(y.wire);
    && before <= after
    && (y.awaiting ==> if before < after then y.lastTx == now else x.awaiting && y.lastTx == x.lastTx)
  }

  /** y follows x by sending, at q where that is given, forgetting payloads and renumbering only. */
  predicate Follows(x: Sender, y: Sender, q: Option<u32>) {
    && y.tcp == x.tcp && x.wire <= y.wire && SynAcks(y.wire) == SynAcks(x.wire)
    && (Settled(x) ==> Settled(y)) && Sendings(x.wire) <= Sendings(y.wire)
    && (q.Some? ==> SentAt(x, y, q.value))
  }

  /** It does so without renumbering. */
  predicate Derived(x: Sender, y: Sender, q: Option<u32>) {
    Follows(x, y, q) && y.seqNr == x.seqNr && y.ackNr == x.ackNr
  }

  /** Every frame of one call is handled at the clock reading q, where that is given. */
  ghost predicate ClockedAt(o: Oracle, q: Option<u32>) {
    q.Some? ==> OracleClocked(o, q.value)
  }

  lemma FollowsTrans(x: Sender, y: Sender, z: Sender, q: Option<u32>)
    requires Follows(x, y, q) && Follows(y, z, q)
    ensures Follows(x, z, q)
  {
    hide SynAcks, Settled, Sendings;
  }

  lemma DerivedTrans(x: Sender, y: Sender, z: Sender, q: Option<u32>)
    requires Derived(x, y, q) && Derived(y, z, q)
    ensures Derived(x, z, q)
  {
    hide Follows;
    FollowsTrans(x, y, z, q);
  }

  lemma DerivedSelf(x: Sender, q: Option<u32>)
    ensures Derived(x, x, q)
  {
    hide SynAcks, Settled, Sendings;
  }

  lemma OneMoreEntry(w: seq<Wire>, e: Wire)
    ensures SynAcks(w + [e]) == SynAcks(w) + (if e.SynAckSent? then [e] else [])
    ensures Sendings(w + [e]) == Sendings(w) + (if e.Fresh? || e.Again? then 1 else 0)
  {
    assert (w + [e])[..|w|] == w;
  }

  /** Anything but a connection answer goes on the wire, and a payload sent over TCP starts the timer. */
  lemma PutFollows(x: Sender, e: Wire, y: Sender, q: Option<u32>)
    requires !e.SynAckSent? && y.wire == x.wire + [e] && y.tcp == x.tcp
    requires Settled(x) ==> Settled(y)
    requires if e.Fresh? || e.Again? then q.Some? && y.awaiting ==> y.lastTx == q.value
             else y.awaiting ==> x.awaiting && y.lastTx == x.lastTx
    ensures Follows(x, y, q)
  {
    OneMoreEntry(x.wire, e);
    hide SynAcks, Sendings, Settled;
  }

  lemma SentDerived(x: Sender, enc: Option<Data>, now: u32, q: Option<u32>)
    requires q.Some? ==> q.value == now
    ensures Derived(x, SentBy(x, enc, now), q)
  {
    hide Follows, V2gtp.Frame, AgainRun, LastFresh, WireOk, MayFollow;
    DerivedSelf(x, q);
    if enc.Some? && |enc.value| + V2gtp.HEADER < V2gtp.TX_CAPACITY {
      var f := V2gtp.Frame(enc.value);
      if x.socket {
        PutFollows(x, Socketed(f), SentBy(x, enc, now), q);
      } else if x.tcp == Established && |f| + HEADER_LEN < PACKET_CAPACITY {
        PutFollows(x, Fresh(x.seqNr, x.ackNr, f), SentBy(x, enc, now), q);
      }
    }
  }

  lemma ForgottenDerived(x: Sender, q: Option<u32>)
    ensures Derived(x, ClearPending(x), q)
  {
    hide SynAcks, Sendings;
  }

  lemma RetransmitFollows(x: Sender, now: u32, q: Option<u32>)
    requires x.tcp == Established && x.awaiting && (q.Some? ==> q.value == now)
    ensures Follows(x, Retransmit(x.(attempts := x.attempts + 1), now), q)
  {
    hide Follows, AgainRun, LastFresh, WireOk, MayFollow;
    var y := x.(attempts := x.attempts + 1);
    if x.last == [] || |x.last| + HEADER_LEN >= PACKET_CAPACITY {
      CountedFollows(x, q);
    } else {
      PutFollows(x, Again(x.seqNr, x.ackNr, x.last), Retransmit(y, now), q);
    }
  }

  lemma CountedFollows(x: Sender, q: Option<u32>)
    requires x.tcp == Established
    ensures Follows(x, x.(attempts := x.attempts + 1), q)
  {
    hide SynAcks, Sendings;
  }

  // ---------------------------------------------------------------- frames

  lemma OneAppDerived(t: State, a: App, now: u32, q: Option<u32>)
    requires q.Some? ==> q.value == now
    ensures Derived(t.tx, OneApp(t, a, now).tx, q)
  {
    hide Answer, StartWatchdog, SentBy, Derived;
    DerivedSelf(t.tx, q);
    var named := t.(protocol := if a.scheme == DinScheme then Din else Iso2);
    AnswerTx(named, AppProtocol, true, a.enc, now);
    SentDerived(t.tx, a.enc, now, q);
    var answered := Answer(named, AppProtocol, true, a.enc, now);
    WatchTx(answered.(phase := ForSessionSetup), ForSessionSetup, now);
  }

  lemma {:induction false} HandshakeDerived(t: State, apps: seq<App>, now: u32, q: Option<u32>)
    requires q.Some? ==> q.value == now
    ensures Derived(t.tx, Handshake(t, apps, now).tx, q)
    decreases |apps|
  {
    hide OneApp, Derived;
    if apps == [] {
      DerivedSelf(t.tx, q);
    } else {
      OneAppDerived(t, apps[0], now, q);
      var r := OneApp(t, apps[0], now);
      HandshakeDerived(r, apps[1..], now, q);
      DerivedTrans(t.tx, r.tx, Handshake(r, apps[1..], now).tx, q);
    }
  }

  lemma RefusedTx(t: State, e: Env)
    requires Refuses(t)
    ensures OnIso(t, e).tx == ClearPending(SentBy(t.tx, e.enc, e.now))
  {
    hide Answer, ResetSession, StartWatchdog, SentBy, OnDin;
    AnswerTx(t, PaymentSelection, false, e.enc, e.now);
  }

  lemma RefusedDerived(t: State, e: Env, q: Option<u32>)
    requires q.Some? ==> q.value == e.now
    requires Refuses(t)
    ensures Derived(t.tx, OnIso(t, e).tx, q)
  {
    hide OnIso, SentBy, Refuses, Derived;
    RefusedTx(t, e);
    var y := SentBy(t.tx, e.enc, e.now);
    SentDerived(t.tx, e.enc, e.now, q);
    ForgottenDerived(y, q);
    DerivedTrans(t.tx, y, ClearPending(y), q);
  }

  lemma TwiceDerived(t: State, e: Env, q: Option<u32>)
    requires q.Some? ==> q.value == e.now
    requires MeteringFirst(t)
    ensures Derived(t.tx, OnIso(t, e).tx, q)
  {
    hide OnIso, OnDin, IsoMetering, SentBy, MeteringFirst, DinAnswers, FirstEnc, Derived;
    MeteringShape(t, e);
    MeteringTx(t, e);
    var r, e2 := IsoMetering(t, e), SecondReadings(e);
    SentDerived(t.tx, e.enc, e.now, q);
    DinTx(r, e2);
    SentDerived(r.tx, FirstEnc(DinAnswers(r), e2), e2.now, q);
    DerivedTrans(t.tx, r.tx, OnDin(r, e2).tx, q);
  }

  lemma DialogueDerived(t: State, d: Decoded, e: Env, q: Option<u32>)
    requires q.Some? ==> q.value == e.now
    ensures Derived(t.tx, Dialogue(t, d, e).tx, q)
  {
    hide OnIso, OnDin, Handshake, SentBy, MeteringFirst, Refuses, DinAnswers, Derived, Answers, FirstEnc;
    if t.phase == ForAppProtocol {
      DerivedSelf(t.tx, q);
      HandshakeDerived(t, d.apps, e.now, q);
    } else if t.protocol == Iso2 && Refuses(t) {
      RefusedDerived(t, e, q);
    } else if t.protocol == Iso2 && MeteringFirst(t) {
      TwiceDerived(t, e, q);
    } else {
      AnsweredOnce(t, d, e);
      SentDerived(t.tx, FirstEnc(Answers(t), e), e.now, q);
    }
  }

  lemma FrameDerived(t: State, d: Decoded, e: Env, q: Option<u32>)
    requires q.Some? ==> q.value == e.now
    ensures Derived(t.tx, OnFrame(t, d, e).tx, q)
  {
    hide Dialogue, Decode, Derived;
    StopAndWait.DecodeApart(t, t.tx, d);
    DerivedSelf(t.tx, q);
    DialogueDerived(Decode(t, d), d, e, q);
  }

  lemma {:induction false} FramesDerived(t: State, n: nat, o: Oracle, q: Option<u32>)
    requires ClockedAt(o, q)
    ensures Derived(t.tx, OnFrames(t, n, o).tx, q)
  {
    hide OnFrame, Derived;
    if n == 0 {
      DerivedSelf(t.tx, q);
    } else {
      FramesDerived(t, n - 1, o, q);
      var p := OnFrames(t, n - 1, o);
      FrameDerived(p, o(n - 1).d, o(n - 1).e, q);
      DerivedTrans(t.tx, p.tx, OnFrame(p, o(n - 1).d, o(n - 1).e).tx, q);
    }
  }

  lemma ResetDerived(t: State, openBefore: bool, q: Option<u32>)
    ensures Derived(t.tx, ResetSession(t, openBefore).tx, q)
  {
    hide ResetSession, Derived;
    ForgottenDerived(t.tx, q);
  }

  lemma PayloadDerived(t: State, payload: Data, o: Oracle, openBefore: bool, q: Option<u32>)
    requires ClockedAt(o, q)
    ensures Derived(t.tx, BufferPayload(t, payload, o, openBefore).tx, q)
  {
    hide OnFrames, ResetSession, V2gtp.Deframe, V2gtp.Accept, Derived;
    DerivedSelf(t.tx, q);
    ResetDerived(t, openBefore, q);
    var n := |V2gtp.Deframe(V2gtp.Accept(t.rx, payload)).frames|;
    FramesDerived(t, n, o, q);
    var p := OnFrames(t, n, o);
    ResetDerived(p, openBefore, q);
    DerivedTrans(t.tx, p.tx, ResetSession(p, openBefore).tx, q);
  }

  // ---------------------------------------------------------------- segments

  /** What a connection is opened, confirmed and ended by. */
  predicate Opening(s: Seg) {
    s.dstPort == 15118 && s.syn && !s.ack && !s.rst
  }

  predicate Confirms(x: Sender, s: Seg) {
    s.dstPort == 15118 && s.ack && !s.rst && s.ackNr == (x.seqNr + 1) % TWO32
  }

  predicate Ends(x: Sender, s: Seg) {
    s.dstPort == 15118 && (s.rst || (x.tcp == Established && s.fin && !Opening(s) && |s.payload| < 1000))
  }

  /** A data segment is acknowledged first, with its own acknowledgement number as sequence number; these
      numbers stay while it is handled. */
  lemma DataFollows(t: State, s: Seg, o: Oracle, openBefore: bool, q: Option<u32>)
    requires ClockedAt(o, q)
    ensures var r := OnData(t, s, o, openBefore).tx;
            && Follows(t.tx, r, q)
            && r.seqNr == s.ackNr && r.ackNr == (s.seqNr + |s.payload|) % TWO32
            && t.tx.wire + [AckSent(s.ackNr, (s.seqNr + |s.payload|) % TWO32)] <= r.wire
  {
    hide BufferPayload, ClockedAt, Follows, AgainRun, LastFresh, WireOk, MayFollow;
    var x := t.tx.(ackNr := (s.seqNr + |s.payload|) % TWO32, seqNr := s.ackNr);
    var w := AckSent(x.seqNr, x.ackNr);
    PutFollows(t.tx, w, Put(x, w), q);
    PayloadDerived(t.(tx := Put(x, w)), s.payload, o, openBefore, q);
    var r := BufferPayload(t.(tx := Put(x, w)), s.payload, o, openBefore).tx;
    FollowsTrans(t.tx, Put(x, w), r, q);
    WireGrows(Put(x, w), r, q);
  }

  lemma WireGrows(x: Sender, y: Sender, q: Option<u32>)
    requires Follows(x, y, q)
    ensures x.wire <= y.wire
  {
  }

  /** Closed with its pending payload forgotten. */
  predicate ClosedFrom(x: Sender, y: Sender) {
    y.tcp == Closed && x.wire <= y.wire && SynAcks(y.wire) == SynAcks(x.wire) && Settled(y)
    && Sendings(x.wire) <= Sendings(y.wire)
  }

  lemma CloseFrom(t: State, openBefore: bool)
    ensures ClosedFrom(t.tx, Close(t, openBefore).tx) && Close(t, openBefore).tx.wire == t.tx.wire
  {
    hide ResetSession, SynAcks, Sendings;
  }

  lemma FinFrom(t: State, s: Seg, openBefore: bool)
    ensures ClosedFrom(t.tx, OnFin(t, s, openBefore).tx)
    ensures OnFin(t, s, openBefore).tx.wire ==
            t.tx.wire + [AckSent(t.tx.seqNr, (s.seqNr + |s.payload| + 1) % TWO32)]
  {
    hide Close, SynAcks, Sendings, Settled, AgainRun, LastFresh, WireOk, MayFollow;
    var x := t.tx.(ackNr := (s.seqNr + |s.payload| + 1) % TWO32);
    var w := AckSent(x.seqNr, x.ackNr);
    OneMoreEntry(t.tx.wire, w);
    CloseFrom(t.(tx := Put(x, w)), openBefore);
  }

  lemma ClosedTrans(x: Sender, y: Sender, z: Sender, q: Option<u32>)
    requires Follows(x, y, q) && ClosedFrom(y, z)
    ensures ClosedFrom(x, z)
  {
    hide SynAcks, Settled, Sendings;
  }

  /** The sequence number after a segment: what it acknowledges, where it carries data or an acknowledgement. */
  function NextSeq(x: Sender, s: Seg): u32 {
    if s.ack || s.payload != [] then s.ackNr else x.seqNr
  }

  lemma EstablishedEffect(t: State, s: Seg, o: Oracle, openBefore: bool, q: Option<u32>)
    requires ClockedAt(o, q)
    ensures var y := OnEstablished(t, s, o, openBefore).tx;
            if s.fin && |s.payload| < 1000 then ClosedFrom(t.tx, y) else Follows(t.tx, y, q)
    ensures 0 < |s.payload| < 1000 ==>
              t.tx.wire + [AckSent(s.ackNr, (s.seqNr + |s.payload|) % TWO32)] <= OnEstablished(t, s, o, openBefore).tx.wire
    ensures s.fin && |s.payload| < 1000 ==>
              var w := OnEstablished(t, s, o, openBefore).tx.wire;
              w != [] && w[|w| - 1] == AckSent(NextSeq(t.tx, s), (s.seqNr + |s.payload| + 1) % TWO32)
    ensures !s.fin && |s.payload| < 1000 ==>
              var y := OnEstablished(t, s, o, openBefore).tx;
              && y.seqNr == NextSeq(t.tx, s)
              && y.ackNr == (if s.payload != [] then (s.seqNr + |s.payload|) % TWO32 else t.tx.ackNr)
  {
    hide OnData, OnFin, ResetSession, Follows, ClosedFrom, ClockedAt;
    DerivedSelf(t.tx, q);
    ResetDerived(t, openBefore, q);
    if |s.payload| < 1000 {
      DataFollows(t, s, o, openBefore, q);
      var t1 := if s.payload != [] then OnData(t, s, o, openBefore) else t;
      var t2 := if s.ack then t1.(tx := OnAck(t1.tx, s.ackNr)) else t1;
      AckOnly(t1, t2, s, q);
      FollowsTrans(t.tx, t1.tx, t2.tx, q);
      FinFrom(t2, s, openBefore);
      ClosedTrans(t.tx, t2.tx, OnFin(t2, s, openBefore).tx, q);
    }
  }

  lemma AckOnly(t: State, r: State, s: Seg, q: Option<u32>)
    requires r == if s.ack then t.(tx := OnAck(t.tx, s.ackNr)) else t
    ensures Follows(t.tx, r.tx, q) && r.tx.wire == t.tx.wire && r.tx.ackNr == t.tx.ackNr
    ensures r.tx.seqNr == if s.ack then s.ackNr else t.tx.seqNr
  {
    hide SynAcks, Sendings;
  }

  /** x becomes y on segment s: the connection is opened, confirmed, ended or left as it is, each exactly under
      its condition, and one connection answer is sent exactly when it is opened. */
  predicate Moves(x: Sender, y: Sender, s: Seg) {
    && (y.tcp == Closed <==> Ends(x, s) || (x.tcp == Closed && !Opening(s)))
    && (y.tcp == SynAck <==>
          (x.tcp == Closed && Opening(s)) || (x.tcp == SynAck && !Ends(x, s) && !Confirms(x, s)))
    && (y.tcp == Established <==>
          (x.tcp == SynAck && Confirms(x, s)) || (x.tcp == Established && !Ends(x, s)))
    && (Settled(x) ==> Settled(y))
    && x.wire <= y.wire
    && SynAcks(y.wire) == SynAcks(x.wire) + (if x.tcp == Closed && Opening(s)
                                             then [SynAckSent(0x0102_0304, (s.seqNr + 1) % TWO32)] else [])
  }

  /** So it moves, and what it sends it sends at q, where that is given. */
  predicate MovesAt(x: Sender, y: Sender, s: Seg, q: Option<u32>) {
    Moves(x, y, s) && (q.Some? ==> SentAt(x, y, q.value))
  }

  /** A segment that leaves the connection as it is. */
  lemma StayMoves(x: Sender, y: Sender, s: Seg, q: Option<u32>)
    requires Follows(x, y, q) && !Ends(x, s)
    requires !(x.tcp == Closed && Opening(s)) && !(x.tcp == SynAck && Confirms(x, s))
    ensures MovesAt(x, y, s, q)
  {
    hide SynAcks, Opening, Confirms, Ends, SentAt;
  }

  lemma EndMoves(x: Sender, y: Sender, s: Seg, q: Option<u32>)
    requires ClosedFrom(x, y) && Ends(x, s)
    ensures MovesAt(x, y, s, q)
  {
    hide SynAcks, Sendings;
  }

  lemma OpenMoves(x: Sender, s: Seg, q: Option<u32>)
    requires x.tcp == Closed && Opening(s)
    ensures MovesAt(x, OnSyn(x, s), s, q)
  {
    hide SynAcks, Sendings, AgainRun, LastFresh, WireOk, MayFollow;
    OneMoreEntry(x.wire, SynAckSent(0x0102_0304, (s.seqNr + 1) % TWO32));
  }

  lemma ConfirmMoves(x: Sender, s: Seg, q: Option<u32>)
    requires x.tcp == SynAck && Confirms(x, s)
    ensures MovesAt(x, x.(tcp := Established), s, q)
  {
    hide SynAcks, Sendings;
  }

  lemma SegmentMoves(t: State, s: Seg, o: Oracle, e: Env, q: Option<u32>)
    requires ClockedAt(o, q)
    ensures MovesAt(t.tx, OnSegment(t, s, o, e).tx, s, q)
  {
    hide OnEstablished, Close, OnSyn, Follows, ClosedFrom, MovesAt, ClockedAt;
    var x := t.tx;
    var t1 := t.(lastActivity := e.now);
    DerivedSelf(x, q);
    if s.dstPort != 15118 {
      StayMoves(x, x, s, q);
    } else if s.rst {
      CloseFrom(t1, e.openBefore);
      EndMoves(x, Close(t1, e.openBefore).tx, s, q);
    } else if s.syn && !s.ack {
      SynMoves(x, s, q);
    } else if s.ack && x.tcp == SynAck {
      AckMoves(x, s, q);
    } else if x.tcp == Established {
      EstablishedMoves(t1, s, o, e.openBefore, q);
    } else {
      StayMoves(x, x, s, q);
    }
  }

  lemma SynMoves(x: Sender, s: Seg, q: Option<u32>)
    requires Opening(s)
    ensures MovesAt(x, OnSyn(x, s), s, q)
  {
    hide MovesAt, Follows;
    DerivedSelf(x, q);
    if x.tcp == Closed {
      OpenMoves(x, s, q);
    } else {
      StayMoves(x, x, s, q);
    }
  }

  lemma AckMoves(x: Sender, s: Seg, q: Option<u32>)
    requires x.tcp == SynAck && s.dstPort == 15118 && s.ack && !s.rst
    ensures MovesAt(x, if s.ackNr == (x.seqNr + 1) % TWO32 then x.(tcp := Established) else x, s, q)
  {
    hide MovesAt, Follows;
    DerivedSelf(x, q);
    if Confirms(x, s) {
      ConfirmMoves(x, s, q);
    } else {
      StayMoves(x, x, s, q);
    }
  }

  lemma EstablishedMoves(t: State, s: Seg, o: Oracle, openBefore: bool, q: Option<u32>)
    requires t.tx.tcp == Established && s.dstPort == 15118 && !s.rst && !Opening(s) && ClockedAt(o, q)
    ensures MovesAt(t.tx, OnEstablished(t, s, o, openBefore).tx, s, q)
  {
    hide OnEstablished, MovesAt, Follows, ClosedFrom, ClockedAt;
    EstablishedEffect(t, s, o, openBefore, q);
    if Ends(t.tx, s) {
      EndMoves(t.tx, OnEstablished(t, s, o, openBefore).tx, s, q);
    } else {
      StayMoves(t.tx, OnEstablished(t, s, o, openBefore).tx, s, q);
    }
  }

  /** What a segment does to the connection. */
  lemma TransportExactly(t: State, s: Seg, o: Oracle, e: Env)
    ensures Moves(t.tx, OnSegment(t, s, o, e).tx, s)
  {
    hide OnSegment, Moves;
    SegmentMoves(t, s, o, e, None);
  }

  /** On an established connection data is acknowledged before anything else, up to its end; a FIN is
      acknowledged last, one further. The numbers that go out next are those the segment sets, whatever is
      answered meanwhile. */
  lemma AcknowledgedExactly(t: State, s: Seg, o: Oracle, e: Env)
    requires t.tx.tcp == Established && s.dstPort == 15118 && !s.rst && !Opening(s) && |s.payload| < 1000
    ensures var w := OnSegment(t, s, o, e).tx.wire;
            && (s.payload != [] ==> t.tx.wire + [AckSent(s.ackNr, (s.seqNr + |s.payload|) % TWO32)] <= w)
            && (s.fin ==> w != [] && w[|w| - 1] == AckSent(NextSeq(t.tx, s), (s.seqNr + |s.payload| + 1) % TWO32))
    ensures var y := OnSegment(t, s, o, e).tx;
            !s.fin ==> && y.seqNr == NextSeq(t.tx, s)
                       && y.ackNr == (if s.payload != [] then (s.seqNr + |s.payload|) % TWO32 else t.tx.ackNr)
  {
    hide OnEstablished, Close, SynAcks, Sendings;
    EstablishedEffect(t.(lastActivity := e.now), s, o, e.openBefore, None);
  }

  // ---------------------------------------------------------------- whole runs

  /** The connection answer an event calls for. */
  function AnswerDue(t: State, ev: Event): seq<Wire> {
    if ev.Packet? && Opening(ev.seg) && t.tx.tcp == Closed
    then [SynAckSent(0x0102_0304, (ev.seg.seqNr + 1) % TWO32)] else []
  }

  /** The answers the SYNs of a run call for, each one that met a closed connection. */
  function AnswersDue(b: State, es: seq<Event>): seq<Wire> {
    if es == [] then []
    else AnswersDue(b, es[..|es| - 1]) + AnswerDue(Run(b, es[..|es| - 1]), es[|es| - 1])
  }

  /** From x to y no connection answer is sent, a settled sender stays settled, and what is sent is sent at q,
      where that is given. */
  predicate Calmly(x: Sender, y: Sender, q: Option<u32>) {
    && SynAcks(y.wire) == SynAcks(x.wire) && (Settled(x) ==> Settled(y))
    && (q.Some? ==> SentAt(x, y, q.value))
  }

  lemma FollowsCalmly(x: Sender, y: Sender, q: Option<u32>)
    requires Follows(x, y, q)
    ensures Calmly(x, y, q)
  {
    hide SynAcks, Sendings;
  }

  lemma ClosedCalmly(x: Sender, y: Sender, q: Option<u32>)
    requires ClosedFrom(x, y)
    ensures Calmly(x, y, q)
  {
    hide SynAcks, Sendings;
  }

  lemma RetryCalmly(t: State, e: Env, q: Option<u32>)
    requires t.tx.tcp == Established && (q.Some? ==> q.value == e.now)
    ensures Calmly(t.tx, RetryStage(t, e).tx, q)
  {
    hide Close, Retransmit, Follows, ClosedFrom, Calmly;
    if !RetryDue(t, e.now) {
      DerivedSelf(t.tx, q);
      FollowsCalmly(t.tx, t.tx, q);
    } else if t.tx.attempts < MAX_RETRANSMIT {
      RetransmitFollows(t.tx, e.now, q);
      FollowsCalmly(t.tx, Retransmit(t.tx.(attempts := t.tx.attempts + 1), e.now), q);
    } else {
      CloseFrom(t, e.openBefore);
      ClosedCalmly(t.tx, Close(t, e.openBefore).tx, q);
    }
  }

  lemma IdleCalmly(t: State, e: Env, q: Option<u32>)
    ensures Calmly(t.tx, IdleStage(t, e).tx, q)
  {
    hide Close, Follows, ClosedFrom, Calmly, IdleDue;
    DerivedSelf(t.tx, q);
    FollowsCalmly(t.tx, t.tx, q);
    CloseFrom(t, e.openBefore);
    ClosedCalmly(t.tx, Close(t, e.openBefore).tx, q);
  }

  lemma TransportResetCalmly(t: State, e: Env, q: Option<u32>)
    ensures Calmly(t.tx, TransportReset(t, e).tx, q)
  {
    hide ResetSession, SynAcks, Sendings;
  }

  lemma WatchdogCalmly(t: State, e: Env, q: Option<u32>)
    ensures Calmly(t.tx, WatchdogStage(t, e).tx, q)
  {
    hide ResetSession, TransportReset, Check, Follows, Calmly;
    var t1 := t.(wd := Check(t.wd, e.now).0);
    DerivedSelf(t.tx, q);
    FollowsCalmly(t.tx, t.tx, q);
    ResetDerived(t1, e.openBefore, q);
    FollowsCalmly(t.tx, ResetSession(t1, e.openBefore).tx, q);
    TransportResetCalmly(ResetSession(t1, e.openBefore), e, q);
    CalmlyTrans(t.tx, ResetSession(t1, e.openBefore).tx, TransportReset(ResetSession(t1, e.openBefore), e).tx, q);
  }

  lemma CalmlyTrans(x: Sender, y: Sender, z: Sender, q: Option<u32>)
    requires Calmly(x, y, q) && Calmly(y, z, q)
    ensures Calmly(x, z, q)
  {
    hide SynAcks, Settled, Sendings;
  }

  lemma TickCalmly(t: State, e: Env, q: Option<u32>)
    requires q.Some? ==> q.value == e.now
    ensures Calmly(t.tx, TcpTick(t, e).tx, q)
  {
    hide RetryStage, IdleStage, WatchdogStage, Calmly;
    if t.tx.tcp == Established {
      var t1 := RetryStage(t, e);
      RetryCalmly(t, e, q);
      IdleCalmly(t1, e, q);
      WatchdogCalmly(IdleStage(t1, e), e, q);
      CalmlyTrans(t.tx, t1.tx, IdleStage(t1, e).tx, q);
      CalmlyTrans(t.tx, IdleStage(t1, e).tx, TcpTick(t, e).tx, q);
    } else {
      WatchdogCalmly(t, e, q);
    }
  }

  lemma PilotEffect(t: State, c: bool, openBefore: bool)
    ensures CpCheck(t, c, openBefore).tx == t.tx
  {
    PilotLeavesTransport(t, c, openBefore);
  }

  /** Every clock reading of the event is q, where that is given. */
  ghost predicate EventAt(ev: Event, q: Option<u32>) {
    q.Some? ==> EventClocked(ev, q.value)
  }

  lemma StepAnswers(t: State, ev: Event, q: Option<u32>)
    requires Settled(t.tx) && EventAt(ev, q)
    ensures SynAcks(Step(t, ev).tx.wire) == SynAcks(t.tx.wire) + AnswerDue(t, ev)
    ensures Settled(Step(t, ev).tx)
    ensures q.Some? ==> SentAt(t.tx, Step(t, ev).tx, q.value)
  {
    hide OnSegment, BufferPayload, TcpTick, CpCheck, TransportReset, RampTick, SynAcks, Sendings, Opening, Ends, Confirms,
         OracleClocked;
    match ev
    case Packet(s, o, e) => SegmentMoves(t, s, o, e, q);
    case SocketData(p, o, e) => PayloadDerived(t.(lastActivity := e.now), p, o, e.openBefore, q);
    case TransportClosed(e) => TransportResetCalmly(t, e, q);
    case Tick(e) => TickCalmly(t, e, q);
    case Pilot20ms(c, openBefore) => PilotEffect(t, c, openBefore);
    case _ =>
  }

  /** In every run the connection answers on the wire are exactly those due, in order: one for each SYN to port
      15118 that met a closed connection, acknowledging the number after its own. */
  lemma {:induction false} ConnectionAnswers(b: State, es: seq<Event>)
    requires PoweredUp(b)
    ensures SynAcks(Run(b, es).tx.wire) == AnswersDue(b, es) && Settled(Run(b, es).tx)
  {
    if es != [] {
      hide Step, SynAcks, Settled, AnswerDue, PoweredUp;
      ConnectionAnswers(b, es[..|es| - 1]);
      StepAnswers(Run(b, es[..|es| - 1]), es[|es| - 1], None);
    }
  }

  // ---------------------------------------------------------------- the handshake

  lemma SynMeets(t: State, s: Seg, o: Oracle, e: Env)
    requires t.tx.tcp == Closed && Opening(s)
    ensures var y := OnSegment(t, s, o, e).tx;
            && y == t.tx.(tcp := SynAck, seqNr := 0x0102_0304, ackNr := (s.seqNr + 1) % TWO32,
                          peerPort := s.srcPort, wire := y.wire)
            && y.wire == t.tx.wire + [SynAckSent(0x0102_0304, (s.seqNr + 1) % TWO32)]
  {
    hide OnEstablished, Close;
  }

  lemma AckMeets(t: State, s: Seg, o: Oracle, e: Env)
    requires t.tx.tcp == SynAck && s.dstPort == 15118 && s.ack && !s.rst
    ensures OnSegment(t, s, o, e).tx ==
            if s.ackNr == (t.tx.seqNr + 1) % TWO32 then t.tx.(tcp := Established) else t.tx
  {
    hide OnEstablished, Close;
  }

  /** The three-way handshake, in every run: a SYN numbered q that meets a closed connection is answered once,
      with numbers 0x01020304 and q + 1; the acknowledgement that follows establishes the connection exactly when
      its number is 0x01020305 and changes nothing more. The sender and a peer expecting that number then stand
      where the run of the lossy network begins. */
  lemma HandshakeOpens(b: State, es: seq<Event>, syn: Seg, o: Oracle, e: Env, ack: Seg, p: Oracle, f: Env)
    requires PoweredUp(b) && Run(b, es).tx.tcp == Closed && Opening(syn)
    requires ack.dstPort == 15118 && ack.ack && !ack.rst
    ensures var x := Run(b, es).tx;
            var y := OnSegment(OnSegment(Run(b, es), syn, o, e), ack, p, f).tx;
            && y.wire == x.wire + [SynAckSent(0x0102_0304, (syn.seqNr + 1) % TWO32)]
            && y.peerPort == syn.srcPort
            && (y.tcp == Established <==> ack.ackNr == 0x0102_0305)
            && (y.tcp == SynAck <==> ack.ackNr != 0x0102_0305)
            && (y.tcp == Established ==>
                  StopAndWait.JustOpened(StopAndWait.Net(y.(wire := y.wire[|x.wire|..]), [], [], 0x0102_0305, -1, [])))
  {
    hide Run, OnSegment, Good, PoweredUp, SynAcks;
    var t := Run(b, es);
    ConnectionAnswers(b, es);
    RunGood(b, es);
    GoodSender(t);
    PendingNotEmpty(t.tx);
    SynMeets(t, syn, o, e);
    AckMeets(OnSegment(t, syn, o, e), ack, p, f);
  }

  // ---------------------------------------------------------------- a lost answer

  /** Nothing but repeated SYNs and segments for other ports is heard. */
  predicate OnlySyns(ev: Event) {
    Silent(ev) || (ev.Packet? && (ev.seg.dstPort != 15118 || Opening(ev.seg)))
  }

  /** The connection is being opened, and no session is watched. */
  predicate HalfOpen(x: Sender, wd: Watchdog) {
    x.tcp == SynAck && !wd.active
  }

  lemma HalfOpenStep(t: State, ev: Event)
    requires HalfOpen(t.tx, t.wd) && OnlySyns(ev)
    ensures HalfOpen(Step(t, ev).tx, Step(t, ev).wd)
    ensures Step(t, ev).tx.wire == t.tx.wire
  {
    hide OnEstablished, Close, CpCheck, RampTick, RetryStage, IdleStage, ResetSession, Expired;
    match ev
    case Packet(s, o, e) =>
    case Tick(e) =>
      InactiveNeverExpires(t.wd, e.now);
      WatchdogStageRests(t, e);
    case Pilot20ms(c, openBefore) => PilotLeavesTransport(t, c, openBefore);
    case _ =>
  }

  /** A connection answer that is lost is never repeated: while it is being opened, a connection neither times
      out nor answers the vehicle's repeated SYN, however long that goes on. */
  lemma {:induction false} LostAnswerStrands(t: State, es: seq<Event>)
    requires HalfOpen(t.tx, t.wd) && forall k :: 0 <= k < |es| ==> OnlySyns(es[k])
    ensures HalfOpen(Run(t, es).tx, Run(t, es).wd) && Run(t, es).tx.wire == t.tx.wire
  {
    if es != [] {
      hide Step, HalfOpen, OnlySyns;
      var p := es[..|es| - 1];
      assert forall k :: 0 <= k < |p| ==> p[k] == es[k];
      LostAnswerStrands(t, p);
      HalfOpenStep(Run(t, p), es[|es| - 1]);
    }
  }
}
