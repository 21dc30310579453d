/** The burst loop of Timer20ms (src/main.cpp): packets of the modem lie back to back in the receive buffer,
    each behind a 12-byte header and before a 2-byte footer, and are shifted to the front one by one. */
module Deframe {
  import opened Bytes
  import opened Slac

  const HEADER: nat := 12
  const FOOTER: nat := 2
  const MIN_PAYLOAD: nat := 60
  const MIN_PACKET: nat := 74
  const CAPACITY: nat := 3163

  // ---------------------------------------------------------------- the loop on values

  /** Done; or stuck on a front that is no header, which is never consumed; or a front that looks like a
      header in fewer than 14 bytes, where the first move has no length. */
  datatype End = Done | Stuck | Overrun

  datatype Drained = Drained(handed: seq<Arrival>, end: End)

  predicate Marked(b: Buffer) {
    b[4] == 0xAA && b[5] == 0xAA && b[6] == 0xAA && b[7] == 0xAA && Declared(b) >= MIN_PAYLOAD
  }

  function Declared(b: Buffer): u16 {
    b[8] as int + b[9] as int * 256
  }

  /** n bytes from offset `from` moved to the front; the rest of the buffer stays. */
  function Moved(b: Buffer, from: nat, n: nat): Buffer
    requires from + n <= BUFFER
  {
    b[from..from + n] + b[n..]
  }

  /** The first move drops the header but carries two bytes too few, the second drops payload and footer. */
  function Drain(b: Buffer, avail: nat): Drained
    requires avail <= CAPACITY
    decreases avail
  {
    if avail == 0 then Drained([], Done)
    else if !Marked(b) then Drained([], Stuck)
    else if avail < HEADER + FOOTER then Drained([], Overrun)
    else
      var n := Declared(b);
      var b1 := Moved(b, HEADER, avail - HEADER - FOOTER);
      if avail - n - HEADER - FOOTER >= MIN_PACKET then
        var left := avail - n - HEADER - FOOTER;
        var d := Drain(Moved(b1, FOOTER + n, left), left);
        Drained([Arrival(b1, n)] + d.handed, d.end)
      else Drained([Arrival(b1, n)], Done)
  }

  /** One pass of the loop. */
  lemma DrainStep(b: Buffer, avail: nat)
    requires 0 < avail <= CAPACITY
    ensures !Marked(b) ==> Drain(b, avail) == Drained([], Stuck)
    ensures Marked(b) && avail < HEADER + FOOTER ==> Drain(b, avail) == Drained([], Overrun)
    ensures Marked(b) && avail >= HEADER + FOOTER ==>
              var n := Declared(b);
              var b1 := Moved(b, HEADER, avail - HEADER - FOOTER);
              var left := avail - n - HEADER - FOOTER;
              if left >= MIN_PACKET then
                var d := Drain(Moved(b1, FOOTER + n, left), left);
                Drain(b, avail) == Drained([Arrival(b1, n)] + d.handed, d.end)
              else Drain(b, avail) == Drained([Arrival(b1, n)], Done)
  {
    hide Marked, Moved;
  }

  // ---------------------------------------------------------------- packing

  /** A packet: four unused bytes, the marker, the length, two unused bytes, payload, footer. */
  datatype Packet = Packet(lead: Data, pad: Data, payload: Data, footer: Data)

  predicate Valid(p: Packet) {
    |p.lead| == 4 && |p.pad| == 2 && |p.footer| == 2 && MIN_PAYLOAD <= |p.payload| < 0x1_0000
  }

  function Packed(p: Packet): (r: Data)
    requires Valid(p)
    ensures |r| == HEADER + |p.payload| + FOOTER
  {
    p.lead + [0xAA, 0xAA, 0xAA, 0xAA, |p.payload| % 256, |p.payload| / 256] + p.pad + p.payload + p.footer
  }

  predicate AllValid(ps: seq<Packet>) {
    forall k :: 0 <= k < |ps| ==> Valid(ps[k])
  }

  function Burst(ps: seq<Packet>): Data
    requires AllValid(ps)
  {
    if ps == [] then [] else Packed(ps[0]) + Burst(ps[1..])
  }

  /** The buffer starts with burst s, the last two bytes excepted. */
  predicate Carries(b: Buffer, s: Data) {
    FOOTER <= |s| <= CAPACITY && b[..|s| - FOOTER] == s[..|s| - FOOTER]
  }

  lemma {:induction false} BurstSize(ps: seq<Packet>)
    requires AllValid(ps)
    ensures ps != [] ==> |Burst(ps)| >= MIN_PACKET
  {
  }

  /** The front packet of a burst is recognised, and its payload is at the front after the first move. */
  lemma FrontPacket(b: Buffer, p: Packet, more: Data)
    requires Valid(p) && Carries(b, Packed(p) + more)
    ensures Marked(b) && Declared(b) == |p.payload|
    ensures var avail := |Packed(p) + more|;
            Moved(b, HEADER, avail - HEADER - FOOTER)[..|p.payload|] == p.payload
  {
    var s := Packed(p) + more;
    var n := |p.payload|;
    assert forall k :: 0 <= k < |s| - FOOTER ==> b[k] == s[..|s| - FOOTER][k] == s[k];
    assert s[4] == 0xAA && s[5] == 0xAA && s[6] == 0xAA && s[7] == 0xAA;
    assert s[8] == n % 256 && s[9] == n / 256;
    assert forall k :: 0 <= k < n ==> s[HEADER + k] == p.payload[k];
  }

  /** After both moves the buffer carries the rest of the burst, again without its last two bytes. */
  lemma RestOfBurst(b: Buffer, p: Packet, more: Data)
    requires Valid(p) && Carries(b, Packed(p) + more) && |more| >= MIN_PACKET
    ensures var avail := |Packed(p) + more|;
            var b1 := Moved(b, HEADER, avail - HEADER - FOOTER);
            Carries(Moved(b1, FOOTER + |p.payload|, |more|), more)
  {
    var s := Packed(p) + more;
    var n := |p.payload|;
    var b1 := Moved(b, HEADER, |s| - HEADER - FOOTER);
    var b2 := Moved(b1, FOOTER + n, |more|);
    assert forall k :: 0 <= k < |s| - FOOTER ==> b[k] == s[..|s| - FOOTER][k] == s[k];
    forall j | 0 <= j < |more| - FOOTER ensures b2[j] == more[j] {
      assert b2[j] == b1[FOOTER + n + j];
      assert b1[FOOTER + n + j] == b[HEADER + FOOTER + n + j];
      assert s[HEADER + FOOTER + n + j] == more[j];
    }
  }

  /** The loop hands over exactly the payloads of ps, then messages of the lengths `stale`, and ends so. */
  predicate HandsOver(d: Drained, ps: seq<Packet>, stale: seq<nat>, end: End) {
    && d.end == end && |d.handed| == |ps| + |stale|
    && (forall k :: 0 <= k < |ps| ==>
          && d.handed[k].n == |ps[k].payload| <= BUFFER
          && d.handed[k].rx[..|ps[k].payload|] == ps[k].payload)
    && (forall k :: 0 <= k < |stale| ==> d.handed[|ps| + k].n == stale[k])
  }

  lemma HandsOverFirst(a: Arrival, d: Drained, p: Packet, more: seq<Packet>, stale: seq<nat>, end: End)
    requires a.n == |p.payload| <= BUFFER && a.rx[..|p.payload|] == p.payload
    requires HandsOver(d, more, stale, end)
    ensures HandsOver(Drained([a] + d.handed, d.end), [p] + more, stale, end)
  {
    var h, ps := [a] + d.handed, [p] + more;
    forall k | 0 <= k < |ps|
      ensures h[k].n == |ps[k].payload| <= BUFFER && h[k].rx[..|ps[k].payload|] == ps[k].payload
    {
      if k > 0 {
        assert h[k] == d.handed[k - 1] && ps[k] == more[k - 1];
      }
    }
    forall k | 0 <= k < |stale| ensures h[|ps| + k].n == stale[k] {
      assert h[|ps| + k] == d.handed[|more| + k];
    }
  }

  lemma BurstCons(p: Packet, more: seq<Packet>, tail: Data)
    requires Valid(p) && AllValid(more)
    ensures AllValid([p] + more) && Burst([p] + more) + tail == Packed(p) + (Burst(more) + tail)
  {
    assert ([p] + more)[1..] == more;
  }

  lemma CarriesSize(b: Buffer, s: Data)
    requires Carries(b, s)
    ensures |s| <= CAPACITY
  {
  }

  /** A front of at least ten bytes is a header. */
  predicate HasHeader(s: Data)
    requires |s| >= MIN_PACKET
  {
    s[4] == 0xAA && s[5] == 0xAA && s[6] == 0xAA && s[7] == 0xAA && StatedLength(s) >= MIN_PAYLOAD
  }

  function StatedLength(s: Data): u16
    requires |s| >= MIN_PACKET
  {
    s[8] as int + s[9] as int * 256
  }

  /** What can follow complete packets: too little for a packet, a front that is no header, or a packet cut
      off before its end. */
  predicate Tail(s: Data) {
    |s| < MIN_PACKET || !HasHeader(s) || StatedLength(s) + HEADER + FOOTER > |s|
  }

  function EndOn(tail: Data): End {
    if |tail| >= MIN_PACKET && !HasHeader(tail) then Stuck else Done
  }

  /** A packet cut off is handed over all the same, with its stated length. */
  function StaleOf(tail: Data): seq<nat> {
    if |tail| >= MIN_PACKET && HasHeader(tail) then [StatedLength(tail)] else []
  }

  /** The pass over a packet with less than a packet behind it. */
  lemma LastPass(b: Buffer, p: Packet, tail: Data)
    requires Valid(p) && Carries(b, Packed(p) + tail) && |tail| < MIN_PACKET
    ensures HandsOver(Drain(b, |Packed(p) + tail|), [p], [], Done)
  {
    hide Drain, Moved, Marked, Packed, HandsOver, Carries;
    CarriesSize(b, Packed(p) + tail);
    FrontPacket(b, p, tail);
    DrainStep(b, |Packed(p) + tail|);
    var a := Arrival(Moved(b, HEADER, |p.payload| + |tail|), |p.payload|);
    NothingHanded();
    HandsOverFirst(a, Drained([], Done), p, [], [], Done);
    assert [a] + [] == [a] && [p] + [] == [p];
  }

  /** The pass over a packet with more behind it. */
  lemma InnerPass(b: Buffer, p: Packet, more: seq<Packet>, rest: Data, b2: Buffer, stale: seq<nat>, end: End)
    requires Valid(p) && Carries(b, Packed(p) + rest) && |rest| >= MIN_PACKET
    requires b2 == Moved(Moved(b, HEADER, |p.payload| + |rest|), FOOTER + |p.payload|, |rest|)
    requires |rest| <= CAPACITY && HandsOver(Drain(b2, |rest|), more, stale, end)
    ensures HandsOver(Drain(b, |Packed(p) + rest|), [p] + more, stale, end)
  {
    hide Drain, Moved, Marked, Packed, HandsOver, Carries;
    CarriesSize(b, Packed(p) + rest);
    FrontPacket(b, p, rest);
    DrainStep(b, |Packed(p) + rest|);
    HandsOverFirst(Arrival(Moved(b, HEADER, |p.payload| + |rest|), |p.payload|), Drain(b2, |rest|), p, more,
                   stale, end);
  }

  /** The pass over what follows the packets. */
  lemma TailPass(b: Buffer, tail: Data)
    requires Carries(b, tail) && |tail| >= MIN_PACKET && Tail(tail)
    ensures HandsOver(Drain(b, |tail|), [], StaleOf(tail), EndOn(tail))
  {
    assert forall k :: 0 <= k < 10 ==> b[k] == tail[..|tail| - FOOTER][k] == tail[k];
    DrainStep(b, |tail|);
    hide Drain, Moved;
  }

  /** De-framing inverts packing, and exactly: from any burst of packets and a tail the payloads are handed
      over one by one, in order and all of them. A tail without a header keeps the loop spinning for ever when it
      is at least a packet long; with a header, but cut off, it is handed over as one more message of its
      stated length, most of it not part of the burst; anything shorter is dropped. */
  lemma {:induction false} DeframingInvertsPacking(b: Buffer, ps: seq<Packet>, tail: Data)
    requires AllValid(ps) && Tail(tail) && Carries(b, Burst(ps) + tail)
    requires ps != [] || |tail| >= MIN_PACKET
    ensures HandsOver(Drain(b, |Burst(ps) + tail|), ps, StaleOf(tail), EndOn(tail))
    decreases |ps|
  {
    hide Drain, Moved, Packed, HandsOver, Burst, Carries, Tail, HasHeader, StatedLength;
    if ps == [] {
      EmptyBurst();
      assert [] + tail == tail;
      TailPass(b, tail);
    } else {
      var p, more := ps[0], ps[1..];
      assert ps == [p] + more;
      BurstCons(p, more, tail);
      CarriesSize(b, Burst(ps) + tail);
      var rest := Burst(more) + tail;
      BurstSize(more);
      if |rest| < MIN_PACKET {
        EmptyBurst();
        assert more == [] && [] + tail == tail && [p] == ps;
        LastPass(b, p, tail);
      } else {
        RestOfBurst(b, p, rest);
        var b2 := Moved(Moved(b, HEADER, |p.payload| + |rest|), FOOTER + |p.payload|, |rest|);
        if more == [] {
          EmptyBurst();
          assert [] + tail == tail;
        }
        DeframingInvertsPacking(b2, more, tail);
        InnerPass(b, p, more, rest, b2, StaleOf(tail), EndOn(tail));
      }
    }
  }

  /** Any byte string whatever is a burst of packets and a tail. */
  lemma {:induction false} EveryBurstSplits(s: Data) returns (ps: seq<Packet>, tail: Data)
    ensures AllValid(ps) && Tail(tail) && s == Burst(ps) + tail
    decreases |s|
  {
    if Tail(s) {
      ps, tail := [], s;
      EmptyBurst();
      assert [] + s == s;
    } else {
      var n := StatedLength(s);
      var p := Packet(s[..4], s[10..12], s[12..12 + n], s[12 + n..14 + n]);
      PackedFront(s, p);
      hide Packed, Burst, Tail, HasHeader, StatedLength;
      var more;
      more, tail := EveryBurstSplits(s[14 + n..]);
      ps := [p] + more;
      BurstCons(p, more, tail);
    }
  }

  lemma PackedFront(s: Data, p: Packet)
    requires !Tail(s)
    requires var n := StatedLength(s); p == Packet(s[..4], s[10..12], s[12..12 + n], s[12 + n..14 + n])
    ensures Valid(p) && s == Packed(p) + s[14 + StatedLength(s)..]
  {
    var n := StatedLength(s);
    assert s[4..10] == [0xAA, 0xAA, 0xAA, 0xAA, n % 256, n / 256];
    assert s == s[..4] + s[4..10] + s[10..12] + s[12..12 + n] + s[12 + n..14 + n] + s[14 + n..];
  }

  /** So for every burst of at least a packet's length the loop ends exactly when what follows its last complete
      packet is shorter than a packet or starts with a header. */
  lemma EndsExactly(b: Buffer, s: Data) returns (ps: seq<Packet>, tail: Data)
    requires Carries(b, s) && |s| >= MIN_PACKET
    ensures AllValid(ps) && Tail(tail) && s == Burst(ps) + tail
    ensures HandsOver(Drain(b, |s|), ps, StaleOf(tail), EndOn(tail))
    ensures Drain(b, |s|).end == Done <==> |tail| < MIN_PACKET || HasHeader(tail)
  {
    ps, tail := EveryBurstSplits(s);
    hide Drain, Burst, Carries, Tail, HasHeader, StatedLength;
    if ps == [] {
      EmptyBurst();
      assert [] + tail == tail;
    }
    DeframingInvertsPacking(b, ps, tail);
  }

  lemma NothingHanded()
    ensures HandsOver(Drained([], Done), [], [], Done)
  {
  }

  lemma EmptyBurst()
    ensures Burst([]) == []
  {
  }

  lemma NothingLeft(b: Buffer)
    ensures Drain(b, 0) == Drained([], Done)
  {
  }

  // ---------------------------------------------------------------- the loop in place

  class Receiver {
    const rxbuffer: array<byte>
    var invalidFrameCounter: byte
    ghost var handed: seq<Arrival>

    ghost predicate Valid()
      reads this
    {
      rxbuffer.Length == BUFFER
    }

    constructor ()
      ensures Valid() && fresh(rxbuffer)
    {
      rxbuffer := new byte[BUFFER](_ => 0);
      invalidFrameCounter := 0;
      handed := [];
    }

    /** Handles a burst of reg16 bytes. On a front that is no header the loop of the program never ends, and
        without 14 bytes its first move has no length; the model stops there. */
    method DrainBurst(avail: u16) returns (end: End)
      requires Valid() && avail <= CAPACITY
      modifies this`invalidFrameCounter, this`handed, rxbuffer
      ensures var d := Drain(old(rxbuffer[..]), avail);
              handed == old(handed) + d.handed && end == d.end
    {
      hide Drain, Moved;
      ghost var all := Drain(rxbuffer[..], avail);
      ghost var before := handed;
      var reg16 := avail;
      while reg16 != 0
        invariant 0 <= reg16 <= CAPACITY
        invariant before + all.handed == handed + Drain(rxbuffer[..], reg16).handed
        invariant all.end == Drain(rxbuffer[..], reg16).end
        decreases reg16
      {
        DrainStep(rxbuffer[..], reg16);
        var rxbytes := rxbuffer[8] as int + rxbuffer[9] as int * 256;
        if !(rxbuffer[4] == 0xAA && rxbuffer[5] == 0xAA && rxbuffer[6] == 0xAA && rxbuffer[7] == 0xAA
             && rxbytes >= MIN_PAYLOAD) {
          return Stuck;
        }
        invalidFrameCounter := 0;
        if reg16 < HEADER + FOOTER {
          return Overrun;
        }
        Shift(HEADER, reg16 - HEADER - FOOTER);
        handed := handed + [Arrival(rxbuffer[..], rxbytes)];
        if reg16 - rxbytes - HEADER - FOOTER >= MIN_PACKET {
          reg16 := reg16 - rxbytes - HEADER - FOOTER;
          Shift(FOOTER + rxbytes, reg16);
        } else {
          reg16 := 0;
          NothingLeft(rxbuffer[..]);
        }
      }
      NothingLeft(rxbuffer[..]);
      return Done;
    }

    method Shift(from: nat, n: nat)
      requires Valid() && from + n <= BUFFER
      modifies rxbuffer
      ensures rxbuffer[..] == Moved(old(rxbuffer[..]), from, n)
    {
      MoveDown(rxbuffer, from, n);
      assert rxbuffer[..] == rxbuffer[..n] + rxbuffer[n..];
    }
  }
}
