/** Header parsing of src/ipv6.cpp and of the receivers behind it: the walk over IPv6 extension headers
    (section 4 of RFC 8200, section 6.1.1 of RFC 6275), UDP and TCP fields. */
module Ipv6 {
  import opened Bytes
  import opened TcpLink

  const PAYLOAD_AT: nat := 54
  const NEXT_UDP: byte := 0x11
  const NEXT_TCP: byte := 0x06

  predicate IsExtension(h: byte) {
    h == 0 || h == 43 || h == 44 || h == 50 || h == 51 || h == 60 || h == 135
  }

  /** Length of an extension header that states `units`. */
  function HeaderBytes(units: byte): nat {
    (units as int + 1) * 8
  }

  /** Upper-layer protocol, and where its bytes lie in the frame. */
  datatype Metadata = Metadata(protocol: byte, offset: nat, length: nat)

  /** `Outside`: the walk reads a header behind the end of the receive buffer. */
  datatype Result = Malformed | Outside | Found(data: Metadata)

  /** The walk from header h at `offset`; the declared IPv6 payload ends at `end`, which may lie behind the
      end of the buffer. */
  function Walk(f: Buffer, end: nat, offset: nat, h: byte): Result
    requires offset <= end
    decreases end - offset
  {
    if !IsExtension(h) then Found(Metadata(h, offset, end - offset))
    else if offset + 2 > end then Malformed
    else if offset + 2 > BUFFER then Outside
    else
      var n := HeaderBytes(f[offset + 1]);
      if offset + n > end then Malformed else Walk(f, end, offset + n, f[offset])
  }

  function PayloadEnd(f: Buffer): nat {
    PAYLOAD_AT + Be16(f, 18)
  }

  /** A frame of declared length rxbytes at the front of the buffer. */
  function Parse(f: Buffer, rxbytes: u16): Result {
    if rxbytes < PAYLOAD_AT || rxbytes < PayloadEnd(f) then Malformed
    else Walk(f, PayloadEnd(f), PAYLOAD_AT, f[20])
  }

  /** computeIpv6PayloadMetadata, for every declared length. Its 16-bit offsets cannot wrap: every sum stays
      within a frame whose length is 16 bits wide. Where the program would read behind the buffer the model
      stops. */
  method ComputePayloadMetadata(f: Buffer, rxbytes: u16) returns (r: Result)
    ensures r == Parse(f, rxbytes)
    ensures r.Found? ==> r.data.offset + r.data.length == PayloadEnd(f) <= rxbytes
    ensures r == Outside ==> BUFFER < PayloadEnd(f) <= rxbytes
  {
    if rxbytes < PAYLOAD_AT {
      return Malformed;
    }
    var payloadLen := f[18] as int * 256 + f[19];
    if rxbytes < PAYLOAD_AT + payloadLen {
      return Malformed;
    }
    var offset: u16 := PAYLOAD_AT;
    var consumed: u16 := 0;
    var currentHeader := f[20];
    while IsExtension(currentHeader)
      invariant 0 <= consumed <= payloadLen && offset == PAYLOAD_AT + consumed
      invariant Walk(f, PAYLOAD_AT + payloadLen, offset, currentHeader) == Parse(f, rxbytes)
      decreases payloadLen - consumed
    {
      if offset + 2 > PAYLOAD_AT + payloadLen {
        return Malformed;
      }
      if offset + 2 > BUFFER {
        return Outside;
      }
      var next := f[offset];
      var headerBytes: u16 := HeaderBytes(f[offset + 1]);
      if offset + headerBytes > PAYLOAD_AT + payloadLen {
        return Malformed;
      }
      offset := offset + headerBytes;
      consumed := consumed + headerBytes;
      currentHeader := next;
    }
    return Found(Metadata(currentHeader, offset, payloadLen - consumed));
  }

  /** On any input: what is found lies within the declared payload, and is no extension header. */
  lemma {:induction false} WalkBounds(f: Buffer, end: nat, offset: nat, h: byte)
    requires offset <= end
    ensures var r := Walk(f, end, offset, h);
            r.Found? ==> && offset <= r.data.offset && r.data.offset + r.data.length == end
                         && !IsExtension(r.data.protocol)
                         && (r.data.offset - offset) % 8 == 0
    decreases end - offset
  {
    if IsExtension(h) && offset + 2 <= end && offset + 2 <= BUFFER && offset + HeaderBytes(f[offset + 1]) <= end {
      WalkBounds(f, end, offset + HeaderBytes(f[offset + 1]), f[offset]);
    }
  }

  // ---------------------------------------------------------------- leaving the buffer

  /** Bytes of headers with these length fields. */
  function Total(units: seq<byte>): nat {
    if units == [] then 0 else HeaderBytes(units[0]) + Total(units[1..])
  }

  /** From `offset` on, where header h is announced, the buffer holds extension headers with these length
      fields one behind the other. */
  predicate Holds(f: Buffer, offset: nat, h: byte, units: seq<byte>)
    decreases |units|
  {
    units == [] ||
    (&& IsExtension(h) && offset + 2 <= BUFFER && f[offset + 1] == units[0]
     && Holds(f, offset + HeaderBytes(units[0]), f[offset], units[1..]))
  }

  /** The header announced by the last of them. */
  function AnnouncedBy(f: Buffer, offset: nat, h: byte, units: seq<byte>): byte
    requires Holds(f, offset, h, units)
    decreases |units|
  {
    if units == [] then h else AnnouncedBy(f, offset + HeaderBytes(units[0]), f[offset], units[1..])
  }

  /** They lead to a further extension header that starts before the declared end but does not lie in the buffer. */
  predicate LeadOutside(f: Buffer, end: nat, offset: nat, h: byte, units: seq<byte>) {
    && Holds(f, offset, h, units) && IsExtension(AnnouncedBy(f, offset, h, units))
    && BUFFER < offset + Total(units) + 2 <= end
  }

  lemma LeadStep(f: Buffer, end: nat, offset: nat, h: byte, units: seq<byte>)
    requires units != []
    ensures LeadOutside(f, end, offset, h, units) <==>
              && IsExtension(h) && offset + 2 <= BUFFER && f[offset + 1] == units[0]
              && LeadOutside(f, end, offset + HeaderBytes(units[0]), f[offset], units[1..])
  {
    hide IsExtension, HeaderBytes;
  }

  lemma {:induction false} WalkLeads(f: Buffer, end: nat, offset: nat, h: byte) returns (units: seq<byte>)
    requires offset <= end && Walk(f, end, offset, h) == Outside
    ensures LeadOutside(f, end, offset, h, units)
    decreases end - offset
  {
    if offset + 2 > BUFFER {
      units := [];
    } else {
      var u := f[offset + 1];
      var more := WalkLeads(f, end, offset + HeaderBytes(u), f[offset]);
      units := [u] + more;
      assert units[1..] == more;
      LeadStep(f, end, offset, h, units);
    }
  }

  lemma {:induction false} LeadsWalk(f: Buffer, end: nat, offset: nat, h: byte, units: seq<byte>)
    requires LeadOutside(f, end, offset, h, units) && offset <= end
    ensures Walk(f, end, offset, h) == Outside
    decreases |units|
  {
    if units != [] {
      LeadStep(f, end, offset, h, units);
      LeadsWalk(f, end, offset + HeaderBytes(units[0]), f[offset], units[1..]);
    }
  }

  /** The walk leaves the buffer exactly when the declared payload fits the declared length and the header
      bytes form a chain of extension headers, from the one behind the fixed header, that leads to a further
      one starting before the declared end and not within the buffer. */
  lemma LeavesBufferExactly(f: Buffer, rxbytes: u16)
    ensures Parse(f, rxbytes) == Outside <==>
              PayloadEnd(f) <= rxbytes &&
              exists units: seq<byte> :: LeadOutside(f, PayloadEnd(f), PAYLOAD_AT, f[20], units)
  {
    hide Walk, LeadOutside;
    if Parse(f, rxbytes) == Outside {
      var units := WalkLeads(f, PayloadEnd(f), PAYLOAD_AT, f[20]);
    }
    if units: seq<byte> :| PayloadEnd(f) <= rxbytes && LeadOutside(f, PayloadEnd(f), PAYLOAD_AT, f[20], units) {
      LeadsWalk(f, PayloadEnd(f), PAYLOAD_AT, f[20], units);
    }
  }

  /** It never does when the declared length, or the declared payload, fits the buffer. */
  lemma FittingStaysInside(f: Buffer, rxbytes: u16)
    requires rxbytes <= BUFFER || PayloadEnd(f) <= BUFFER
    ensures Parse(f, rxbytes) != Outside
  {
    hide Walk, Holds, AnnouncedBy, Total;
    if Parse(f, rxbytes) == Outside {
      var units := WalkLeads(f, PayloadEnd(f), PAYLOAD_AT, f[20]);
      assert false;
    }
  }

  // ---------------------------------------------------------------- encoding

  /** A hop-by-hop, routing, destination-options or mobility header: all state their length in units of
      eight bytes beyond the first eight. */
  datatype Extension = Extension(kind: byte, units: byte, body: Data)

  predicate Valid(x: Extension) {
    (x.kind == 0 || x.kind == 43 || x.kind == 60 || x.kind == 135) && |x.body| == HeaderBytes(x.units) - 2
  }

  predicate AllValid(xs: seq<Extension>) {
    forall k :: 0 <= k < |xs| ==> Valid(xs[k])
  }

  /** The header value that announces a chain. */
  function Announced(xs: seq<Extension>, upper: byte): byte {
    if xs == [] then upper else xs[0].kind
  }

  function Chain(xs: seq<Extension>, upper: byte): Data {
    if xs == [] then []
    else [Announced(xs[1..], upper), xs[0].units] + xs[0].body + Chain(xs[1..], upper)
  }

  /** The walk from the front of an encoded chain, wherever it lies, arrives behind it. */
  lemma {:induction false} WalkChain(f: Buffer, end: nat, offset: nat, xs: seq<Extension>, upper: byte)
    requires AllValid(xs) && !IsExtension(upper)
    requires offset + |Chain(xs, upper)| <= end && end <= BUFFER
    requires f[offset..offset + |Chain(xs, upper)|] == Chain(xs, upper)
    ensures var n := |Chain(xs, upper)|;
            Walk(f, end, offset, Announced(xs, upper)) == Found(Metadata(upper, offset + n, end - offset - n))
    decreases |xs|
  {
    if xs != [] {
      var x, more := xs[0], xs[1..];
      hide Walk, Chain, IsExtension, HeaderBytes;
      ChainHead(f, offset, xs, upper);
      WalkStep(f, end, offset, x.kind);
      WalkChain(f, end, offset + HeaderBytes(x.units), more, upper);
    }
  }

  /** What lies at the front of an encoded chain, and what behind its first header. */
  lemma ChainHead(f: Buffer, offset: nat, xs: seq<Extension>, upper: byte)
    requires AllValid(xs) && xs != []
    requires offset + |Chain(xs, upper)| <= |f| && f[offset..offset + |Chain(xs, upper)|] == Chain(xs, upper)
    ensures var x, more := xs[0], xs[1..];
            var n := HeaderBytes(x.units);
            && IsExtension(x.kind) && n >= 8
            && |Chain(xs, upper)| == n + |Chain(more, upper)|
            && f[offset] == Announced(more, upper) && f[offset + 1] == x.units
            && f[offset + n..offset + n + |Chain(more, upper)|] == Chain(more, upper)
  {
    var x, more := xs[0], xs[1..];
    var c, rest := Chain(xs, upper), Chain(more, upper);
    var n := HeaderBytes(x.units);
    assert c == [Announced(more, upper), x.units] + x.body + rest;
    var piece := f[offset..offset + |c|];
    assert f[offset] == piece[0] && f[offset + 1] == piece[1];
    assert f[offset + n..offset + n + |rest|] == piece[n..] == rest;
  }

  lemma WalkStep(f: Buffer, end: nat, offset: nat, h: byte)
    requires offset + 2 <= end && offset + 2 <= BUFFER && IsExtension(h) && offset + HeaderBytes(f[offset + 1]) <= end
    ensures Walk(f, end, offset, h) == Walk(f, end, offset + HeaderBytes(f[offset + 1]), f[offset])
  {
  }

  /** A frame: Ethernet header, fixed IPv6 header with its length and announced header, chain, payload. */
  predicate Encodes(f: Buffer, rxbytes: u16, xs: seq<Extension>, upper: byte, payload: Data) {
    var c := Chain(xs, upper);
    && PAYLOAD_AT + |c| + |payload| <= rxbytes && PAYLOAD_AT + |c| + |payload| <= BUFFER
    && Be16(f, 18) == |c| + |payload| && f[20] == Announced(xs, upper)
    && f[PAYLOAD_AT..PAYLOAD_AT + |c| + |payload|] == c + payload
  }

  /** The walk inverts encoding: for any chain of such headers in a frame that fits, exactly the upper-layer
      protocol and the payload are found. */
  lemma ParseInvertsEncoding(f: Buffer, rxbytes: u16, xs: seq<Extension>, upper: byte, payload: Data)
    requires AllValid(xs) && !IsExtension(upper) && Encodes(f, rxbytes, xs, upper, payload)
    ensures var n := |Chain(xs, upper)|;
            && Parse(f, rxbytes) == Found(Metadata(upper, PAYLOAD_AT + n, |payload|))
            && f[PAYLOAD_AT + n..PAYLOAD_AT + n + |payload|] == payload
  {
    var c := Chain(xs, upper);
    var whole := f[PAYLOAD_AT..PAYLOAD_AT + |c| + |payload|];
    assert f[PAYLOAD_AT..PAYLOAD_AT + |c|] == whole[..|c|] == c;
    assert f[PAYLOAD_AT + |c|..PAYLOAD_AT + |c| + |payload|] == whole[|c|..] == payload;
    WalkChain(f, PAYLOAD_AT + Be16(f, 18), PAYLOAD_AT, xs, upper);
  }

  // ---------------------------------------------------------------- transport headers

  /** The header checks and field extraction of evaluateTcpPacket. */
  function ParseTcp(t: Data): Option<Seg> {
    if |t| < 20 then None
    else
      var hdrLen := t[12] / 16 * 4;
      if hdrLen < 20 || hdrLen > |t| then None
      else
        Some(Seg(Be16(t, 0), Be16(t, 2), Be32(t, 4), Be32(t, 8),
                 t[13] % 2 == 1, t[13] / 2 % 2 == 1, t[13] / 4 % 2 == 1, t[13] / 16 % 2 == 1,
                 t[hdrLen..]))
  }

  const UDP_CAPACITY: nat := 100

  datatype Datagram = Datagram(srcPort: u16, dstPort: u16, payload: Data)

  /** The header checks and field extraction of evaluateUdpPayload. */
  function ParseUdp(u: Data): Option<Datagram> {
    if |u| < 8 then None
    else
      var n := Be16(u, 4);
      if n > |u| || n < 8 || n - 8 > UDP_CAPACITY then None
      else Some(Datagram(Be16(u, 0), Be16(u, 2), u[8..n]))
  }
}
