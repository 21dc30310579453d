/** Outgoing frames of src/tcp.cpp and src/ipv6.cpp: TCP segments and the SDP answer, packed layer by layer
    through fixed buffers, and read back by the program's own receivers. */
module Frames {
  import opened Bytes
  import opened Checksum
  import opened Ipv6
  import opened TcpSender
  import opened TcpLink
  import opened Hlc
  import opened HlcSafety

  type Mac = m: Data | |m| == 6 witness seq(6, _ => 0)

  datatype Ends = Ends(srcMac: Mac, dstMac: Mac, srcIp: Address, dstIp: Address)

  // ---------------------------------------------------------------- layers

  function EthernetFrame(e: Ends, ip: Data): Data {
    e.dstMac + e.srcMac + [0x86, 0xDD] + ip
  }

  function IpHeader(e: Ends, length: u16, protocol: byte, hopLimit: byte): (h: Data)
    ensures |h| == 40
  {
    [0x60, 0, 0, 0, length / 256, length % 256, protocol, hopLimit] + e.srcIp + e.dstIp
  }

  /** A transport unit t in IPv6 in Ethernet. */
  function Enveloped(e: Ends, t: Data, protocol: byte, hopLimit: byte): Data
    requires |t| < 0x1_0000
  {
    EthernetFrame(e, IpHeader(e, |t|, protocol, hopLimit) + t)
  }

  datatype TcpFields = TcpFields(
    srcPort: u16, dstPort: u16, seqNr: u32, ackNr: u32, flags: byte, mss: bool, payload: Data)

  const WINDOW: u16 := 1000
  const ACK: byte := 0x10
  const PSH_ACK: byte := 0x18
  const SYN_ACK: byte := 0x12

  function Options(f: TcpFields): (r: Data)
    ensures |r| == HeaderLen(f) - 20
  {
    if f.mss then [0x02, 0x04, 0x05, 0xA0] else []
  }

  function HeaderLen(f: TcpFields): byte {
    if f.mss then 24 else 20
  }

  function TcpHeader(f: TcpFields, sum: u16): (h: Data)
    ensures |h| == 20
  {
    [f.srcPort / 256, f.srcPort % 256, f.dstPort / 256, f.dstPort % 256,
     f.seqNr / 0x100_0000, f.seqNr / 0x1_0000 % 256, f.seqNr / 0x100 % 256, f.seqNr % 256,
     f.ackNr / 0x100_0000, f.ackNr / 0x1_0000 % 256, f.ackNr / 0x100 % 256, f.ackNr % 256,
     HeaderLen(f) / 4 * 16, f.flags, WINDOW / 256, WINDOW % 256, sum / 256, sum % 256, 0, 0]
  }

  function Segment(f: TcpFields, sum: u16): (s: Data)
    ensures |s| == HeaderLen(f) as nat + |f.payload|
  {
    TcpHeader(f, sum) + (Options(f) + f.payload)
  }

  /** The segment as it is sent, its checksum filled in. */
  function SealedSegment(e: Ends, f: TcpFields): Data {
    Segment(f, Sum16(Segment(f, 0), e.srcIp, e.dstIp, NEXT_TCP))
  }

  function UdpHeader(dstPort: u16, length: u16, sum: u16): (h: Data)
    ensures |h| == 8
  {
    [15118 / 256, 15118 % 256, dstPort / 256, dstPort % 256, length / 256, length % 256, sum / 256, sum % 256]
  }

  function UdpDatagram(dstPort: u16, payload: Data, sum: u16): (d: Data)
    requires |payload| + 8 < 0x1_0000
    ensures |d| == 8 + |payload|
  {
    UdpHeader(dstPort, 8 + |payload|, sum) + payload
  }

  function SealedDatagram(e: Ends, dstPort: u16, payload: Data): Data
    requires |payload| + 8 < 0x1_0000
  {
    UdpDatagram(dstPort, payload, Sum16(UdpDatagram(dstPort, payload, 0), e.srcIp, e.dstIp, NEXT_UDP))
  }

  // ---------------------------------------------------------------- reading back

  lemma WordBytes(v: u16)
    ensures v / 256 * 256 + v % 256 == v
  {
  }

  lemma LongBytes(v: u32)
    ensures v / 0x100_0000 * 0x100_0000 + v / 0x1_0000 % 256 * 0x1_0000 + v / 0x100 % 256 * 0x100 + v % 256 == v
  {
    var a, b, c := v / 0x100, v / 0x1_0000, v / 0x100_0000;
    assert v == a * 0x100 + v % 0x100;
    assert b == a / 0x100 && a == b * 0x100 + a % 0x100;
    assert c == b / 0x100 && b == c * 0x100 + b % 0x100;
  }

  /** The frame lies at the front of a receive buffer, whatever is behind it. */
  predicate Receives(rx: Buffer, frame: Data) {
    |frame| <= BUFFER && rx[..|frame|] == frame
  }

  /** Envelopes open again: the walk finds exactly the transport unit, and the addresses are in place. */
  lemma EnvelopeOpens(e: Ends, t: Data, protocol: byte, hopLimit: byte, rx: Buffer)
    requires PAYLOAD_AT + |t| <= BUFFER && !IsExtension(protocol)
    requires Receives(rx, Enveloped(e, t, protocol, hopLimit))
    ensures Parse(rx, PAYLOAD_AT + |t|) == Found(Metadata(protocol, PAYLOAD_AT, |t|))
    ensures rx[PAYLOAD_AT..PAYLOAD_AT + |t|] == t
    ensures rx[22..38] == e.srcIp && rx[38..54] == e.dstIp && rx[0..6] == e.dstMac && rx[6..12] == e.srcMac
  {
    var f := Enveloped(e, t, protocol, hopLimit);
    FrameLayout(e, t, protocol, hopLimit);
    assert forall k :: 0 <= k < |f| ==> rx[k] == rx[..|f|][k] == f[k];
    hide Enveloped;
    assert rx[22..38] == f[22..38] && rx[38..54] == f[38..54] && rx[0..6] == f[0..6] && rx[6..12] == f[6..12];
    assert Chain([], protocol) == [];
    assert rx[PAYLOAD_AT..PAYLOAD_AT + |t|] == f[PAYLOAD_AT..] == [] + t;
    ParseInvertsEncoding(rx, PAYLOAD_AT + |t|, [], protocol, t);
  }

  lemma FrameLayout(e: Ends, t: Data, protocol: byte, hopLimit: byte)
    requires |t| < 0x1_0000
    ensures var f := Enveloped(e, t, protocol, hopLimit);
            && |f| == PAYLOAD_AT + |t| && f[PAYLOAD_AT..] == t
            && Be16(f, 18) == |t| && f[20] == protocol
            && f[22..38] == e.srcIp && f[38..54] == e.dstIp && f[0..6] == e.dstMac && f[6..12] == e.srcMac
  {
    WordBytes(|t|);
  }

  /** The receiver's view of a segment. */
  function AsReceived(f: TcpFields): Seg {
    Seg(f.srcPort, f.dstPort, f.seqNr, f.ackNr,
        f.flags % 2 == 1, f.flags / 2 % 2 == 1, f.flags / 4 % 2 == 1, f.flags / 16 % 2 == 1, f.payload)
  }

  lemma SegmentParses(f: TcpFields, sum: u16)
    ensures ParseTcp(Segment(f, sum)) == Some(AsReceived(f))
  {
    var h, s := TcpHeader(f, sum), Segment(f, sum);
    WordBytes(f.srcPort);
    WordBytes(f.dstPort);
    LongBytes(f.seqNr);
    LongBytes(f.ackNr);
    assert forall k :: 0 <= k < 20 ==> s[k] == h[k];
    assert s[HeaderLen(f)..] == f.payload;
  }

  lemma DatagramParses(dstPort: u16, payload: Data, sum: u16)
    requires |payload| <= UDP_CAPACITY
    ensures ParseUdp(UdpDatagram(dstPort, payload, sum)) == Some(Datagram(15118, dstPort, payload))
  {
    var n: u16 := 8 + |payload|;
    var h, d := UdpHeader(dstPort, n, sum), UdpDatagram(dstPort, payload, sum);
    WordBytes(dstPort);
    WordBytes(n);
    assert forall k :: 0 <= k < 8 ==> d[k] == h[k];
    assert d[8..n] == payload;
  }

  lemma SegmentSum(f: TcpFields, sum: u16)
    ensures Be16(Segment(f, 0), 16) == 0 && Segment(f, sum) == WithWord(Segment(f, 0), 16, sum)
  {
    assert TcpHeader(f, sum) == TcpHeader(f, 0)[16 := sum / 256][17 := sum % 256];
  }

  lemma DatagramSum(dstPort: u16, payload: Data, sum: u16)
    requires |payload| + 8 < 0x1_0000
    ensures Be16(UdpDatagram(dstPort, payload, 0), 6) == 0
    ensures UdpDatagram(dstPort, payload, sum) == WithWord(UdpDatagram(dstPort, payload, 0), 6, sum)
  {
    var n := 8 + |payload|;
    assert UdpHeader(dstPort, n, sum) == UdpHeader(dstPort, n, 0)[6 := sum / 256][7 := sum % 256];
  }

  /** Outgoing TCP frames parse back: ports, numbers, flags and payload are the ones put in, and the checksum
      over the received unit, with the received addresses, is correct. */
  lemma TcpFrameParsesBack(e: Ends, f: TcpFields, rx: Buffer)
    requires PAYLOAD_AT + HeaderLen(f) as nat + |f.payload| <= BUFFER
    requires Receives(rx, Enveloped(e, SealedSegment(e, f), NEXT_TCP, 0x40))
    ensures var n := |SealedSegment(e, f)|;
            && Parse(rx, PAYLOAD_AT + n) == Found(Metadata(NEXT_TCP, PAYLOAD_AT, n))
            && ParseTcp(rx[PAYLOAD_AT..PAYLOAD_AT + n]) == Some(AsReceived(f))
            && Sum16(rx[PAYLOAD_AT..PAYLOAD_AT + n], rx[22..38], rx[38..54], NEXT_TCP) == 0
  {
    hide Segment, Sum16, Enveloped, ParseTcp, Parse, Receives;
    var c := Sum16(Segment(f, 0), e.srcIp, e.dstIp, NEXT_TCP);
    EnvelopeOpens(e, SealedSegment(e, f), NEXT_TCP, 0x40, rx);
    SegmentParses(f, c);
    SegmentSum(f, c);
    FilledSumsToZero(Segment(f, 0), 16, e.srcIp, e.dstIp, NEXT_TCP);
  }

  /** The fields of a segment on the sender's wire log. */
  function FieldsOf(w: Wire, srcPort: u16, dstPort: u16): TcpFields
    requires !w.Socketed?
  {
    match w
    case SynAckSent(q, a) => TcpFields(srcPort, dstPort, q, a, SYN_ACK, true, [])
    case AckSent(q, a) => TcpFields(srcPort, dstPort, q, a, ACK, false, [])
    case Fresh(q, a, p) => TcpFields(srcPort, dstPort, q, a, PSH_ACK, false, p)
    case Again(q, a, p) => TcpFields(srcPort, dstPort, q, a, PSH_ACK, false, p)
  }

  /** So every entry a run puts on the wire reaches a receiver as the acknowledgement, connection answer or data
      segment it stands for. */
  lemma WireEntryParsesBack(b: State, es: seq<Event>, k: nat, e: Ends, srcPort: u16, dstPort: u16, rx: Buffer)
    requires PoweredUp(b) && k < |Run(b, es).tx.wire| && !Run(b, es).tx.wire[k].Socketed?
    requires var f := FieldsOf(Run(b, es).tx.wire[k], srcPort, dstPort);
             |f.payload| < 0x1000 && Receives(rx, Enveloped(e, SealedSegment(e, f), NEXT_TCP, 0x40))
    ensures var w := Run(b, es).tx.wire[k];
            var n := |SealedSegment(e, FieldsOf(w, srcPort, dstPort))|;
            && Parse(rx, PAYLOAD_AT + n) == Found(Metadata(NEXT_TCP, PAYLOAD_AT, n))
            && ParseTcp(rx[PAYLOAD_AT..PAYLOAD_AT + n]) ==
               Some(Seg(srcPort, dstPort, w.seqNr, w.ackNr, false, w.SynAckSent?, false, true,
                        if w.Fresh? || w.Again? then w.payload else []))
  {
    hide SealedSegment, Enveloped, ParseTcp, Parse, Receives, Run;
    EntryFits(b, es, k);
    TcpFrameParsesBack(e, FieldsOf(Run(b, es).tx.wire[k], srcPort, dstPort), rx);
  }

  lemma EntryFits(b: State, es: seq<Event>, k: nat)
    requires PoweredUp(b) && k < |Run(b, es).tx.wire|
    ensures var w := Run(b, es).tx.wire[k]; w.Fresh? || w.Again? ==> |w.payload| < 180
  {
    hide Run, Ordered;
    RunGood(b, es);
    var w := Run(b, es).tx.wire;
    assert MayFollow(w[..k], w[k]);
  }

  /** What the vehicle is told: address, port and security of the charging server. */
  function SdpResponse(ip: Address, port: u16, security: byte, transport: byte): (r: Data)
    ensures |r| == 28
  {
    [0x01, 0xFE, 0x90, 0x01, 0, 0, 0, 20] + ip + [port / 256, port % 256, security, transport]
  }

  /** SDP answers parse back likewise. */
  lemma SdpFrameParsesBack(e: Ends, dstPort: u16, port: u16, security: byte, transport: byte, rx: Buffer)
    requires Receives(rx, Enveloped(e, SealedDatagram(e, dstPort, SdpResponse(e.srcIp, port, security, transport)),
                                    NEXT_UDP, 0xFF))
    ensures var r := SdpResponse(e.srcIp, port, security, transport);
            && Parse(rx, PAYLOAD_AT + 36) == Found(Metadata(NEXT_UDP, PAYLOAD_AT, 36))
            && ParseUdp(rx[PAYLOAD_AT..PAYLOAD_AT + 36]) == Some(Datagram(15118, dstPort, r))
            && Sum16(rx[PAYLOAD_AT..PAYLOAD_AT + 36], rx[22..38], rx[38..54], NEXT_UDP) == 0
            && r[8..24] == rx[22..38] && Be16(r, 24) == port && Be32(r, 4) == |r| - 8
  {
    hide Sum16, Enveloped, ParseUdp, Parse, UdpDatagram, Receives;
    var r := SdpResponse(e.srcIp, port, security, transport);
    var c := Sum16(UdpDatagram(dstPort, r, 0), e.srcIp, e.dstIp, NEXT_UDP);
    EnvelopeOpens(e, SealedDatagram(e, dstPort, r), NEXT_UDP, 0xFF, rx);
    DatagramParses(dstPort, r, c);
    DatagramSum(dstPort, r, c);
    FilledSumsToZero(UdpDatagram(dstPort, r, 0), 6, e.srcIp, e.dstIp, NEXT_UDP);
    WordBytes(port);
  }

  /** To every vehicle address and answer belongs a port for which the checksum of the SDP answer comes out
      as zero, the value UDP over IPv6 does not allow. */
  lemma SdpChecksumCanBeZero(e: Ends, port: u16, security: byte, transport: byte) returns (dstPort: u16)
    ensures var t := SealedDatagram(e, dstPort, SdpResponse(e.srcIp, port, security, transport)); Be16(t, 6) == 0
  {
    var r := SdpResponse(e.srcIp, port, security, transport);
    var d := UdpDatagram(0, r, 0);
    dstPort := ZeroReachable(d, 2, e.srcIp, e.dstIp, NEXT_UDP);
    assert UdpHeader(dstPort, 36, 0) == UdpHeader(0, 36, 0)[2 := dstPort / 256][3 := dstPort % 256];
    assert UdpDatagram(dstPort, r, 0) == WithWord(d, 2, dstPort);
    DatagramSum(dstPort, r, 0);
  }

  // ---------------------------------------------------------------- packing in place

  const TX_BUFFER: nat := 3164

  /** How packing a segment ends. */
  datatype Packing = Sent(frameLen: nat) | ReadsBeyond | WritesBeyond

  class Packer {
    const tcpPacket: array<byte>
    const ipRequest: array<byte>
    const v2gFrame: array<byte>
    const udpResponse: array<byte>
    const ipResponse: array<byte>
    const txbuffer: array<byte>

    ghost predicate Valid() {
      && tcpPacket.Length == 200 && ipRequest.Length == 200
      && v2gFrame.Length == 100 && udpResponse.Length == 100 && ipResponse.Length == 100
      && txbuffer.Length == TX_BUFFER
      && tcpPacket != ipRequest && tcpPacket != txbuffer && ipRequest != txbuffer
      && v2gFrame != udpResponse && udpResponse != ipResponse && ipResponse != txbuffer && udpResponse != txbuffer
    }

    constructor ()
      ensures Valid()
    {
      tcpPacket := new byte[200](_ => 0);
      ipRequest := new byte[200](_ => 0);
      v2gFrame := new byte[100](_ => 0);
      udpResponse := new byte[100](_ => 0);
      ipResponse := new byte[100](_ => 0);
      txbuffer := new byte[TX_BUFFER](_ => 0);
    }

    /** tcp_prepareTcpHeader, behind the copied payload. */
    method PrepareTcpHeader(e: Ends, f: TcpFields) returns (len: nat)
      requires Valid() && HeaderLen(f) as nat + |f.payload| <= 200
      requires tcpPacket[HeaderLen(f)..HeaderLen(f) as nat + |f.payload|] == f.payload
      modifies tcpPacket
      ensures len == HeaderLen(f) as nat + |f.payload| && tcpPacket[..len] == SealedSegment(e, f)
    {
      hide Sum16, Segment;
      len := HeaderLen(f) as nat + |f.payload|;
      WriteHeader(f);
      var sum := Calculate(tcpPacket[..len], e.srcIp, e.dstIp, NEXT_TCP);
      SegmentSum(f, sum);
      tcpPacket[16], tcpPacket[17] := sum / 256, sum % 256;
      assert tcpPacket[..len] == WithWord(Segment(f, 0), 16, sum);
    }

    method WriteHeader(f: TcpFields)
      requires Valid() && HeaderLen(f) as nat + |f.payload| <= 200
      requires tcpPacket[HeaderLen(f)..HeaderLen(f) as nat + |f.payload|] == f.payload
      modifies tcpPacket
      ensures tcpPacket[..HeaderLen(f) as nat + |f.payload|] == Segment(f, 0)
    {
      hide TcpHeader, Options, Segment;
      var k: nat := HeaderLen(f);
      ghost var n, before := k + |f.payload|, tcpPacket[..];
      assert before[k..n] == tcpPacket[k..n];
      Overlay(tcpPacket, 0, TcpHeader(f, 0));
      ghost var between := tcpPacket[..];
      Overlay(tcpPacket, 20, Options(f));
      Assembled(before, between, tcpPacket[..], f);
      assert tcpPacket[..n] == tcpPacket[..][..n];
    }

    /** Header and options laid over a packet whose payload is in place make the segment. */
    static lemma Assembled(a: Data, b: Data, c: Data, f: TcpFields)
      requires |a| == |b| == |c| == 200 && HeaderLen(f) as nat + |f.payload| <= 200
      requires a[HeaderLen(f)..HeaderLen(f) as nat + |f.payload|] == f.payload
      requires forall i :: 0 <= i < 200 ==> b[i] == if i < 20 then TcpHeader(f, 0)[i] else a[i]
      requires forall i :: 0 <= i < 200 ==>
                 c[i] == if 20 <= i < 20 + |Options(f)| then Options(f)[i - 20] else b[i]
      ensures c[..HeaderLen(f) as nat + |f.payload|] == Segment(f, 0)
    {
      hide TcpHeader;
      var k: nat := HeaderLen(f);
      var n := k + |f.payload|;
      forall i | k <= i < n ensures c[i] == f.payload[i - k] {
        assert a[i] == a[k..n][i - k];
      }
    }

    /** tcp_packRequestIntoIp. */
    method PackRequestIntoIp(e: Ends, len: nat) returns (ipLen: nat)
      requires Valid() && len + 40 <= 200
      modifies ipRequest
      ensures ipLen == len + 40
      ensures ipRequest[..ipLen] == IpHeader(e, len, NEXT_TCP, 0x40) + tcpPacket[..len]
    {
      ipLen := len + 40;
      CopyInto(ipRequest, 0, IpHeader(e, len, NEXT_TCP, 0x40));
      CopyInto(ipRequest, 40, tcpPacket[..len]);
      assert ipRequest[..ipLen] == ipRequest[..40] + ipRequest[40..40 + len];
    }

    /** tcp_packRequestIntoEthernet: fourteen bytes more are copied than the frame needs. */
    method PackRequestIntoEthernet(e: Ends, ipLen: nat) returns (frameLen: nat)
      requires Valid() && ipLen + 14 <= 200
      modifies txbuffer
      ensures frameLen == ipLen + 14 && txbuffer[..frameLen] == EthernetFrame(e, ipRequest[..ipLen])
    {
      frameLen := ipLen + 14;
      WriteEthernetHeader(e);
      CopyInto(txbuffer, 14, ipRequest[..frameLen]);
      ghost var piece := txbuffer[14..14 + frameLen];
      assert piece == ipRequest[..frameLen];
      assert txbuffer[14..14 + ipLen] == piece[..ipLen] == ipRequest[..ipLen];
      assert txbuffer[..frameLen] == txbuffer[..14] + txbuffer[14..14 + ipLen];
    }

    method WriteEthernetHeader(e: Ends)
      requires Valid()
      modifies txbuffer
      ensures txbuffer[..14] == e.dstMac + e.srcMac + [0x86, 0xDD]
    {
      CopyInto(txbuffer, 0, e.dstMac);
      assert txbuffer[..6] == txbuffer[0..6];
      CopyInto(txbuffer, 6, e.srcMac);
      assert txbuffer[..12] == txbuffer[..6] + txbuffer[6..12];
      CopyInto(txbuffer, 12, [0x86, 0xDD]);
      assert txbuffer[..14] == txbuffer[..12] + txbuffer[12..14];
    }

    /** tcp_transmit and its siblings, from payload to frame, for every segment tcp_transmit accepts. The packet
        buffers are left when the segment is longer than 160 bytes (a payload above 140 behind a plain header) by
        a write, and when it is longer than 146 (a payload above 126) by the read of the fourteen further
        bytes; there the model stops. */
    method SendSegment(e: Ends, f: TcpFields) returns (r: Packing)
      requires Valid() && HeaderLen(f) as nat + |f.payload| < 200
      modifies tcpPacket, ipRequest, txbuffer
      ensures r == WritesBeyond <==> HeaderLen(f) as nat + |f.payload| > 160
      ensures r == ReadsBeyond <==> 146 < HeaderLen(f) as nat + |f.payload| <= 160
      ensures r.Sent? ==> r.frameLen <= TX_BUFFER
                          && txbuffer[..r.frameLen] == Enveloped(e, SealedSegment(e, f), NEXT_TCP, 0x40)
    {
      hide SealedSegment, EthernetFrame, IpHeader;
      CopyInto(tcpPacket, HeaderLen(f) as nat, f.payload);
      var len := PrepareTcpHeader(e, f);
      if len + 40 > ipRequest.Length {
        return WritesBeyond;
      }
      var ipLen := PackRequestIntoIp(e, len);
      if ipLen + 14 > ipRequest.Length {
        return ReadsBeyond;
      }
      var frameLen := PackRequestIntoEthernet(e, ipLen);
      return Sent(frameLen);
    }

    /** buildSdpResponseFrame. */
    method BuildSdpResponseFrame(ip: Address, port: u16, security: byte, transport: byte) returns (len: nat)
      requires Valid()
      modifies v2gFrame
      ensures len == 28 && v2gFrame[..len] == SdpResponse(ip, port, security, transport)
    {
      Overlay(v2gFrame, 8, ip);
      Overlay(v2gFrame, 24, [port / 256, port % 256, security, transport]);
      Overlay(v2gFrame, 0, [0x01, 0xFE, 0x90, 0x01, 0, 0, 0, 20]);
      len := 28;
      forall i | 0 <= i < 28 ensures v2gFrame[i] == SdpResponse(ip, port, security, transport)[i] {
      }
    }

    /** packResponseIntoUdp. */
    method PackResponseIntoUdp(e: Ends, dstPort: u16, frameLen: nat) returns (len: nat)
      requires Valid() && frameLen + 8 <= 100
      modifies udpResponse
      ensures len == frameLen + 8 && udpResponse[..len] == SealedDatagram(e, dstPort, v2gFrame[..frameLen])
    {
      hide Sum16, UdpHeader;
      len := frameLen + 8;
      var v2g := v2gFrame[..frameLen];
      CopyInto(udpResponse, 0, UdpHeader(dstPort, len, 0));
      CopyInto(udpResponse, 8, v2g);
      assert udpResponse[..8] == udpResponse[0..8];
      assert udpResponse[..len] == udpResponse[..8] + udpResponse[8..len] == UdpDatagram(dstPort, v2g, 0);
      var sum := Calculate(udpResponse[..len], e.srcIp, e.dstIp, NEXT_UDP);
      DatagramSum(dstPort, v2g, sum);
      udpResponse[6], udpResponse[7] := sum / 256, sum % 256;
      assert udpResponse[..len] == WithWord(UdpDatagram(dstPort, v2g, 0), 6, sum);
    }

    /** packResponseIntoIp. */
    method PackResponseIntoIp(e: Ends, len: nat) returns (ipLen: nat)
      requires Valid() && len + 40 <= 100
      modifies ipResponse
      ensures ipLen == len + 40
      ensures ipResponse[..ipLen] == IpHeader(e, len, NEXT_UDP, 0xFF) + udpResponse[..len]
    {
      ipLen := len + 40;
      CopyInto(ipResponse, 0, IpHeader(e, len, NEXT_UDP, 0xFF));
      CopyInto(ipResponse, 40, udpResponse[..len]);
      assert ipResponse[..ipLen] == ipResponse[..40] + ipResponse[40..40 + len];
    }

    /** packResponseIntoEthernet. */
    method PackResponseIntoEthernet(e: Ends, ipLen: nat) returns (frameLen: nat)
      requires Valid() && ipLen <= 100
      modifies txbuffer
      ensures frameLen == ipLen + 14 && txbuffer[..frameLen] == EthernetFrame(e, ipResponse[..ipLen])
    {
      frameLen := ipLen + 14;
      WriteEthernetHeader(e);
      CopyInto(txbuffer, 14, ipResponse[..ipLen]);
      assert txbuffer[..frameLen] == txbuffer[..14] + txbuffer[14..14 + ipLen];
    }

    /** sendSdpResponse. */
    method SendSdpResponse(e: Ends, dstPort: u16, port: u16, security: byte, transport: byte) returns (frameLen: nat)
      requires Valid()
      modifies v2gFrame, udpResponse, ipResponse, txbuffer
      ensures frameLen <= TX_BUFFER
      ensures txbuffer[..frameLen] ==
              Enveloped(e, SealedDatagram(e, dstPort, SdpResponse(e.srcIp, port, security, transport)), NEXT_UDP, 0xFF)
    {
      hide SealedDatagram, EthernetFrame, IpHeader, SdpResponse;
      var v2gLen := BuildSdpResponseFrame(e.srcIp, port, security, transport);
      var len := PackResponseIntoUdp(e, dstPort, v2gLen);
      var ipLen := PackResponseIntoIp(e, len);
      frameLen := PackResponseIntoEthernet(e, ipLen);
    }
  }
}
