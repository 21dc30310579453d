/** From the modem's burst to the header walk: the length the modem header states is all the walk goes by. */
module Bursts {
  import opened Bytes
  import opened Slac
  import opened Deframe
  import Ipv6

  /** A burst of complete packets never leads the header walk out of the receive buffer. */
  lemma PacketsStayInside(b: Buffer, ps: seq<Packet>, k: nat)
    requires AllValid(ps) && ps != [] && Carries(b, Burst(ps))
    ensures var d := Drain(b, |Burst(ps)|);
            && d.end == Done && |d.handed| == |ps|
            && (k < |ps| ==> d.handed[k].n <= BUFFER && Ipv6.Parse(d.handed[k].rx, d.handed[k].n) != Ipv6.Outside)
  {
    CarriesSize(b, Burst(ps));
    hide Drain, Burst, Carries, Ipv6.Parse;
    assert Burst(ps) + [] == Burst(ps);
    DeframingInvertsPacking(b, ps, []);
    if k < |ps| {
      var a := Drain(b, |Burst(ps)|).handed[k];
      Ipv6.FittingStaysInside(a.rx, a.n);
    }
  }

  /** A receive buffer whose first 74 bytes are a cut-off packet of stated length 0xFFFF, an IPv6 frame with two
      hop-by-hop headers of 2048 bytes. */
  function CutOff(k: nat): byte {
    if 4 <= k < 10 then (if k < 8 then 0xAA else 0xFF)
    else if k == 24 then 0x86 else if k == 25 then 0xDD
    else if k == 30 then 0x80
    else if k == 67 || k == 2103 then 0xFF
    else 0
  }

  /** This is the input on which it does leave it: a burst of 74 bytes, handed over as a frame of 65535. */
  lemma CutOffLeavesBuffer() returns (b: Buffer)
    ensures var d := Drain(b, 74);
            && d.end == Done && |d.handed| == 1 && d.handed[0].n == 0xFFFF
            && Be16(d.handed[0].rx, 12) == 0x86DD
            && Ipv6.Parse(d.handed[0].rx, 0xFFFF) == Ipv6.Outside
  {
    b := seq(BUFFER, k requires 0 <= k < BUFFER => CutOff(k));
    assert Marked(b) && Declared(b) == 0xFFFF;
    DrainStep(b, 74);
    var f := Moved(b, HEADER, 60);
    assert Drain(b, 74) == Drained([Arrival(f, 0xFFFF)], Done);
    assert forall k :: 0 <= k < 60 ==> f[k] == CutOff(k + 12);
    assert forall k :: 60 <= k < BUFFER ==> f[k] == CutOff(k);
    assert f[12] == 0x86 && f[13] == 0xDD && f[18] == 0x80 && f[19] == 0 && f[20] == 0;
    assert Ipv6.PayloadEnd(f) == Ipv6.PAYLOAD_AT + 0x8000;
    assert f[54] == 0 && f[55] == 0xFF && f[2102] == 0 && f[2103] == 0xFF;
    hide Drain, Moved, CutOff;
    var end := Ipv6.PayloadEnd(f);
    Ipv6.WalkStep(f, end, 54, 0);
    Ipv6.WalkStep(f, end, 2102, 0);
    assert Ipv6.Walk(f, end, 4150, 0) == Ipv6.Outside;
  }
}
