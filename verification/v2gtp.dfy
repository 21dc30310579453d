/** V2GTP framing (ISO 15118-2, section 7.8): the frames the station builds and the reassembly rule
    its receive loop applies to the buffered TCP bytes (src/tcp.cpp). */
module V2gtp {
  import opened Bytes

  const HEADER: int := 8
  const RX_CAPACITY: int := 1000
  const TX_CAPACITY: int := 200
  const EXI_TYPE: int := 0x8001

  /** An EXI frame: version, inverted version, payload type, 32-bit length, payload. */
  function Frame(exi: Data): (f: Data)
    requires |exi| < 0x1_0000
    ensures |f| == HEADER + |exi|
  {
    [0x01, 0xFE] + PutBe16(EXI_TYPE) + PutBe32(|exi|) + exi
  }

  /** What the loop does with the bytes at the front of the buffer. */
  datatype Next = Wait | Bad | Take(len: nat)

  /** `8 + payloadLen` is a 32-bit sum and wraps. */
  function DeclaredLength(b: Data): nat
    requires |b| >= HEADER
  {
    (HEADER + Be32(b, 4)) % TWO32
  }

  function NextFrame(b: Data): (r: Next)
    ensures r.Take? ==> r.len <= |b|
    ensures r != Wait ==> |b| >= HEADER
  {
    if |b| < HEADER then Wait
    else if b[0] != 0x01 || b[1] != 0xFE then Bad
    else if DeclaredLength(b) > RX_CAPACITY then Bad
    else if |b| < DeclaredLength(b) then Wait
    else if Be16(b, 2) != EXI_TYPE then Bad
    else Take(DeclaredLength(b))
  }

  /** How one pass of the loop ends: out of complete frames, on a malformed one, or never: a
      declared length that wraps to zero consumes nothing and is met again and again. */
  datatype End = Pending | Rejected | Spinning

  datatype Deframed = Deframed(frames: seq<Data>, rest: Data, end: End)

  function Deframe(b: Data): Deframed
    decreases |b|
  {
    match NextFrame(b)
    case Wait => Deframed([], b, Pending)
    case Bad => Deframed([], [], Rejected)
    case Take(n) =>
      if n == 0 then Deframed([], b, Spinning)
      else
        var d := Deframe(b[n..]);
        Deframed([b[..n]] + d.frames, d.rest, d.end)
  }

  // ---------------------------------------------------------------- chunks

  function Flat(fs: seq<Data>): Data {
    if fs == [] then [] else fs[0] + Flat(fs[1..])
  }

  /** Bytes the buffer holds after a chunk is copied in: the length counter is 8 bits wide. */
  function Accept(buf: Data, chunk: Data): Data {
    var all := buf + chunk;
    all[..|all| % 256]
  }

  /** One call of the receive routine. */
  function Feed(buf: Data, chunk: Data): Deframed {
    if chunk == [] then Deframed([], buf, Pending)
    else if |buf| + |chunk| > RX_CAPACITY then Deframed([], [], Rejected)
    else Deframe(Accept(buf, chunk))
  }

  /** A run of calls: the frames handed over, and how the last call left the buffer. */
  function FeedAll(buf: Data, chunks: seq<Data>): Deframed
    decreases |chunks|
  {
    if chunks == [] then Deframed([], buf, Pending)
    else
      var d := Feed(buf, chunks[0]);
      if d.end != Pending then d
      else
        var r := FeedAll(d.rest, chunks[1..]);
        Deframed(d.frames + r.frames, r.rest, r.end)
  }

  /** No call overflows the 8-bit length counter. */
  predicate Fits(buf: Data, chunks: seq<Data>)
    decreases |chunks|
  {
    chunks == [] ||
    (|buf| + |chunks[0]| <= 255 && Fits(Feed(buf, chunks[0]).rest, chunks[1..]))
  }

  // ---------------------------------------------------------------- any byte stream

  /** Deciding on a frame needs only that frame's bytes. */
  lemma NextFrameStable(b: Data, c: Data)
    requires NextFrame(b) != Wait
    ensures NextFrame(b + c) == NextFrame(b)
  {
    assert forall i :: 0 <= i < 8 ==> (b + c)[i] == b[i];
  }

  /** One step of the loop. */
  lemma DeframeStep(b: Data)
    ensures NextFrame(b) == Wait ==> Deframe(b) == Deframed([], b, Pending)
    ensures NextFrame(b) == Bad ==> Deframe(b) == Deframed([], [], Rejected)
    ensures NextFrame(b) == Take(0) ==> Deframe(b) == Deframed([], b, Spinning)
    ensures Deframe(b).end == Pending ==>
              NextFrame(b) == Wait || (NextFrame(b).Take? && NextFrame(b).len > 0)
    ensures NextFrame(b).Take? && NextFrame(b).len > 0 ==>
              var n := NextFrame(b).len;
              var t := Deframe(b[n..]);
              Deframe(b) == Deframed([b[..n]] + t.frames, t.rest, t.end)
  {
  }

  /** Reassembly does not depend on where the stream is cut. */
  lemma {:induction false} DeframeAppend(b: Data, c: Data)
    requires Deframe(b).end == Pending
    ensures var d := Deframe(b);
            var e := Deframe(d.rest + c);
            Deframe(b + c) == Deframed(d.frames + e.frames, e.rest, e.end)
    decreases |b|
  {
    hide Deframe, NextFrame;
    DeframeStep(b);
    if NextFrame(b) == Wait {
      assert [] + Deframe(b + c).frames == Deframe(b + c).frames;
    } else {
      var n := NextFrame(b).len;
      NextFrameStable(b, c);
      DeframeStep(b + c);
      assert (b + c)[n..] == b[n..] + c && (b + c)[..n] == b[..n];
      var t := Deframe(b[n..]);
      DeframeAppend(b[n..], c);
      var e := Deframe(t.rest + c);
      assert [b[..n]] + (t.frames + e.frames) == ([b[..n]] + t.frames) + e.frames;
    }
  }

  /** Nothing is lost or invented while the stream is well formed: frames and rest are the stream. */
  lemma {:induction false} DeframeConserves(b: Data)
    requires Deframe(b).end == Pending
    ensures Flat(Deframe(b).frames) + Deframe(b).rest == b
    ensures |Deframe(b).rest| <= |b|
    ensures Deframe(Deframe(b).rest) == Deframed([], Deframe(b).rest, Pending)
    decreases |b|
  {
    hide Deframe, NextFrame;
    DeframeStep(b);
    if NextFrame(b) == Wait {
      assert Flat([]) + b == b;
    } else {
      var n := NextFrame(b).len;
      DeframeConserves(b[n..]);
      var d, t := Deframe(b), Deframe(b[n..]);
      assert d.frames[0] == b[..n] && d.frames[1..] == t.frames;
      assert b == b[..n] + b[n..];
      assert b[..n] + Flat(t.frames) + t.rest == b[..n] + (Flat(t.frames) + t.rest);
    }
  }

  /** Feeding chunk by chunk reassembles the joined stream, for any bytes, as long as the joined
      stream stays well formed and no call overflows the length counter. */
  lemma {:induction false} ChunkingIrrelevant(buf: Data, chunks: seq<Data>)
    requires Deframe(buf) == Deframed([], buf, Pending)
    requires Fits(buf, chunks) && Deframe(buf + Flat(chunks)).end == Pending
    ensures FeedAll(buf, chunks) == Deframe(buf + Flat(chunks))
    decreases |chunks|
  {
    if chunks == [] {
      assert buf + Flat(chunks) == buf;
    } else {
      var c, more := chunks[0], chunks[1..];
      var all := buf + c;
      assert buf + Flat(chunks) == all + Flat(more);
      assert Accept(buf, c) == all;
      PendingPrefix(all, Flat(more));
      DeframeAppend(all, Flat(more));
      DeframeConserves(all);
      var d := Feed(buf, c);
      if c == [] {
        assert all == buf;
      }
      assert d == Deframe(all);
      ChunkingIrrelevant(d.rest, more);
    }
  }

  /** A prefix of a well-formed stream is well formed. */
  lemma {:induction false} PendingPrefix(b: Data, c: Data)
    requires Deframe(b + c).end == Pending
    ensures Deframe(b).end == Pending
    decreases |b|
  {
    if NextFrame(b) != Wait {
      NextFrameStable(b, c);
      var n := NextFrame(b).len;
      assert (b + c)[n..] == b[n..] + c;
      PendingPrefix(b[n..], c);
    }
  }

  // ---------------------------------------------------------------- streams of valid frames

  predicate AllFrames(fs: seq<Data>, exis: seq<Data>) {
    && |fs| == |exis|
    && forall i :: 0 <= i < |fs| ==> |exis[i]| <= RX_CAPACITY - HEADER && fs[i] == Frame(exis[i])
  }

  /** A built frame followed by anything is taken as exactly that frame. */
  lemma FrameIsTaken(exi: Data, more: Data)
    requires |exi| <= RX_CAPACITY - HEADER
    ensures NextFrame(Frame(exi) + more) == Take(HEADER + |exi|)
    ensures (Frame(exi) + more)[..HEADER + |exi|] == Frame(exi)
    ensures (Frame(exi) + more)[HEADER + |exi|..] == more
  {
    var b := Frame(exi) + more;
    assert Frame(exi)[4..8] == PutBe32(|exi|) && Frame(exi)[2..4] == PutBe16(EXI_TYPE);
    assert b[4] == PutBe32(|exi|)[0] && b[5] == PutBe32(|exi|)[1];
    assert b[6] == PutBe32(|exi|)[2] && b[7] == PutBe32(|exi|)[3];
    assert b[2] == PutBe16(EXI_TYPE)[0] && b[3] == PutBe16(EXI_TYPE)[1];
  }

  /** A frame missing its last byte or more is waited for. */
  lemma PartialIsAwaited(exi: Data, p: Data, q: Data)
    requires |exi| <= RX_CAPACITY - HEADER
    requires p + q == Frame(exi) && q != []
    ensures NextFrame(p) == Wait
  {
    FrameIsTaken(exi, []);
    assert Frame(exi) + [] == p + q;
    if NextFrame(p) != Wait {
      NextFrameStable(p, q);
    }
  }

  /** Where a prefix of the stream stands: k complete frames, then `rest` of the next one. */
  ghost predicate Standing(fs: seq<Data>, p: Data, k: nat, rest: Data) {
    && k <= |fs|
    && p == Flat(fs[..k]) + rest
    && (if k == |fs| then rest == [] else |rest| < |fs[k]| && rest == fs[k][..|rest|])
  }

  lemma StandingCons(f: Data, gs: seq<Data>, p: Data, k: nat, rest: Data)
    requires Standing(gs, p, k, rest)
    ensures Standing([f] + gs, f + p, k + 1, rest)
  {
    var fs := [f] + gs;
    assert fs[..k + 1] == [f] + gs[..k];
    assert fs[..k + 1][1..] == gs[..k];
    assert Flat(fs[..k + 1]) == f + Flat(gs[..k]);
    assert f + p == Flat(fs[..k + 1]) + rest;
  }

  /** Any prefix p of a stream of valid frames reassembles to the complete frames it contains, in
      order, and leaves exactly the started part of the next one. */
  lemma {:induction false} PrefixReassembles(fs: seq<Data>, exis: seq<Data>, p: Data, q: Data)
    requires AllFrames(fs, exis) && p + q == Flat(fs)
    ensures var d := Deframe(p);
            && d.end == Pending && |d.frames| <= |fs| && d.frames == fs[..|d.frames|]
            && Standing(fs, p, |d.frames|, d.rest)
    decreases |fs|
  {
    if fs == [] {
      assert p == [];
    } else {
      hide Deframe, NextFrame, Frame, Standing, Flat;
      var f, gs := fs[0], fs[1..];
      assert fs == [f] + gs;
      FlatCons(f, gs);
      if |p| < |f| {
        StartedFrame(f, exis[0], gs, p, q);
        assert fs[..0] == [];
      } else {
        var p' := p[|f|..];
        CompleteFirst(f, exis[0], p, q, Flat(gs));
        PrefixReassembles(gs, exis[1..], p', q);
        StandingCons(f, gs, p', |Deframe(p').frames|, Deframe(p').rest);
      }
    }
  }

  lemma FlatCons(f: Data, gs: seq<Data>)
    ensures Flat([f] + gs) == f + Flat(gs)
  {
    assert ([f] + gs)[1..] == gs;
  }

  lemma CompleteFirst(f: Data, exi: Data, p: Data, q: Data, more: Data)
    requires |exi| <= RX_CAPACITY - HEADER && f == Frame(exi)
    requires p + q == f + more && |p| >= |f|
    ensures p == f + p[|f|..] && p[|f|..] + q == more
    ensures var d := Deframe(p[|f|..]); Deframe(p) == Deframed([f] + d.frames, d.rest, d.end)
  {
    var p' := p[|f|..];
    assert p[..|f|] == (p + q)[..|f|] == (f + more)[..|f|] == f;
    assert p == f + p';
    assert p' + q == (p + q)[|f|..] == (f + more)[|f|..] == more;
    FrameIsTaken(exi, p');
    DeframeStep(p);
  }

  lemma StartedFrame(f: Data, exi: Data, gs: seq<Data>, p: Data, q: Data)
    requires |exi| <= RX_CAPACITY - HEADER && f == Frame(exi)
    requires p + q == f + Flat(gs) && |p| < |f|
    ensures Deframe(p) == Deframed([], p, Pending)
    ensures Standing([f] + gs, p, 0, p)
  {
    assert p == (p + q)[..|p|] == f[..|p|];
    PartialIsAwaited(exi, p, f[|p|..]);
    assert ([f] + gs)[..0] == [] && Flat([]) + p == p;
  }

  /** The refinement: a list of valid frames, cut into chunks anywhere, cut off anywhere, is handed
      over as exactly its complete frames in order, and the buffer holds exactly the unconsumed tail. */
  lemma ReassemblyRefinesFrameList(fs: seq<Data>, exis: seq<Data>, chunks: seq<Data>, unsent: Data)
    requires AllFrames(fs, exis) && Flat(chunks) + unsent == Flat(fs)
    requires Fits([], chunks)
    ensures var d := FeedAll([], chunks);
            && d.end == Pending && |d.frames| <= |fs| && d.frames == fs[..|d.frames|]
            && Standing(fs, Flat(chunks), |d.frames|, d.rest)
    ensures unsent == [] ==> FeedAll([], chunks) == Deframed(fs, [], Pending)
  {
    var p := Flat(chunks);
    PrefixReassembles(fs, exis, p, unsent);
    assert [] + p == p;
    ChunkingIrrelevant([], chunks);
    var d := Deframe(p);
    if unsent == [] {
      assert p == Flat(fs);
      CompleteStanding(fs, |d.frames|, d.rest);
    }
  }

  lemma CompleteStanding(fs: seq<Data>, k: nat, rest: Data)
    requires Standing(fs, Flat(fs), k, rest)
    ensures k == |fs| && rest == [] && fs[..k] == fs
  {
    if k < |fs| {
      FlatSplit(fs, k);
    }
  }

  lemma {:induction false} FlatSplit(fs: seq<Data>, k: nat)
    requires k <= |fs|
    ensures Flat(fs) == Flat(fs[..k]) + Flat(fs[k..])
    ensures k < |fs| ==> |Flat(fs[k..])| >= |fs[k]|
  {
    if k == 0 {
      assert fs[..0] == [] && fs[0..] == fs;
    } else {
      hide Flat;
      FlatSplit(fs[1..], k - 1);
      assert fs[1..][k - 1..] == fs[k..];
      assert fs == [fs[0]] + fs[1..] && fs[..k] == [fs[0]] + fs[1..][..k - 1];
      FlatCons(fs[0], fs[1..]);
      FlatCons(fs[0], fs[1..][..k - 1]);
    }
  }

  // ---------------------------------------------------------------- the loop that never ends

  /** An EXI header whose 32-bit length wraps `8 + payloadLen` to zero. */
  const ENDLESS: Data := [0x01, 0xFE, 0x80, 0x01, 0xFF, 0xFF, 0xFF, 0xF8]

  predicate AllFit(exis: seq<Data>) {
    forall k :: 0 <= k < |exis| ==> |exis[k]| <= RX_CAPACITY - HEADER
  }

  function Frames(exis: seq<Data>): Data
    requires AllFit(exis)
  {
    if exis == [] then [] else Frame(exis[0]) + Frames(exis[1..])
  }

  /** b starts with the frames of these EXI bodies and then the endless header. */
  predicate EndlessAfter(b: Data, exis: seq<Data>) {
    AllFit(exis) && Frames(exis) + ENDLESS <= b
  }

  lemma EndlessHeader(b: Data)
    ensures NextFrame(b) == Take(0) <==> ENDLESS <= b
  {
    if |b| >= HEADER {
      assert ENDLESS <= b <==> b[..8] == ENDLESS;
      LengthWraps(b);
      if b[..8] == ENDLESS {
        assert forall k :: 0 <= k < 8 ==> b[k] == b[..8][k];
      }
      if NextFrame(b) == Take(0) {
        assert forall k :: 0 <= k < 8 ==> b[k] == ENDLESS[k];
        assert b[..8] == ENDLESS;
      }
    }
  }

  /** The declared length wraps to zero exactly for the length field 2^32 - 8; the type is 0x8001 exactly for
      its two bytes. */
  lemma LengthWraps(b: Data)
    requires |b| >= HEADER
    ensures DeclaredLength(b) == 0 <==> b[4] == 0xFF && b[5] == 0xFF && b[6] == 0xFF && b[7] == 0xF8
    ensures Be16(b, 2) == EXI_TYPE <==> b[2] == 0x80 && b[3] == 0x01
  {
  }

  /** What is taken from the front of a buffer is a frame. */
  lemma TakenIsFrame(b: Data)
    requires NextFrame(b).Take? && NextFrame(b).len >= HEADER
    ensures var n := NextFrame(b).len;
            && HEADER <= n <= RX_CAPACITY && b[..n] == Frame(b[8..n]) && b == Frame(b[8..n]) + b[n..]
  {
    var n := NextFrame(b).len;
    LengthNoWrap(b);
    assert n == HEADER + Be32(b, 4);
    var exi := b[8..n];
    HeaderOf(b, n);
    assert b[..n] == b[..8] + exi;
  }

  lemma LengthNoWrap(b: Data)
    requires |b| >= HEADER && HEADER <= DeclaredLength(b) <= RX_CAPACITY
    ensures DeclaredLength(b) == HEADER + Be32(b, 4)
  {
  }

  /** A length field above 2^32 - 8 wraps as well, to one to seven: that many bytes of the header itself are
      handed over as a frame, and what is left is no frame. */
  lemma FragmentExactly(b: Data)
    requires |b| >= HEADER && b[0] == 0x01 && b[1] == 0xFE && Be16(b, 2) == EXI_TYPE
    ensures NextFrame(b).Take? && 0 < NextFrame(b).len < HEADER <==> Be32(b, 4) > TWO32 - HEADER
    ensures Be32(b, 4) > TWO32 - HEADER ==>
              var n := NextFrame(b).len;
              Deframe(b).frames == [b[..n]] && Deframe(b).end != Spinning
  {
    if Be32(b, 4) > TWO32 - HEADER {
      WrappedBytes(b);
      var n := DeclaredLength(b);
      var rest := b[n..];
      assert NextFrame(b) == Take(n) && 0 < n < HEADER;
      assert |rest| >= 8 ==> rest[0] == b[n] && rest[1] == b[n + 1];
      assert NextFrame(rest) == Wait || NextFrame(rest) == Bad;
      DeframeStep(rest);
      DeframeStep(b);
    }
  }

  lemma WrappedBytes(b: Data)
    requires |b| >= HEADER && Be32(b, 4) > TWO32 - HEADER && Be16(b, 2) == EXI_TYPE
    ensures b[2] == 0x80 && b[3] == 0x01 && b[4] == 0xFF && b[5] == 0xFF && b[6] == 0xFF && b[7] > 0xF8
    ensures DeclaredLength(b) == b[7] - 0xF8
  {
  }

  /** The header of an EXI frame of n bytes is determined. */
  lemma HeaderOf(b: Data, n: nat)
    requires HEADER <= n <= RX_CAPACITY && |b| >= n
    requires b[0] == 0x01 && b[1] == 0xFE && Be16(b, 2) == EXI_TYPE && Be32(b, 4) == n - HEADER
    ensures Frame(b[8..n]) == b[..8] + b[8..n]
  {
    var m := n - HEADER;
    assert b[4] == 0 && b[5] == 0 && b[6] == m / 256 && b[7] == m % 256;
    assert PutBe32(m) == PutBe16(0) + PutBe16(m) == [0, 0, m / 256, m % 256];
    assert PutBe16(EXI_TYPE) == [0x80, 0x01];
    assert b[..8] == [0x01, 0xFE] + PutBe16(EXI_TYPE) + PutBe32(m);
  }

  lemma NotAFragment(b: Data)
    requires NextFrame(b).Take? && NextFrame(b).len > 0 && Deframe(b).end == Spinning
    ensures NextFrame(b).len >= HEADER
  {
    hide Deframe;
    FragmentExactly(b);
  }

  lemma {:induction false} SpinFound(b: Data) returns (exis: seq<Data>)
    requires Deframe(b).end == Spinning
    ensures EndlessAfter(b, exis)
    decreases |b|
  {
    DeframeStep(b);
    EndlessHeader(b);
    hide Deframe, NextFrame, Frame, Frames;
    if NextFrame(b) == Take(0) {
      exis := [];
      NoFrames();
    } else {
      var n := NextFrame(b).len;
      NotAFragment(b);
      TakenIsFrame(b);
      var more := SpinFound(b[n..]);
      exis := [b[8..n]] + more;
      FramesCons(b[8..n], more);
      assert Frame(b[8..n]) + (Frames(more) + ENDLESS) <= Frame(b[8..n]) + b[n..];
      assert Frames(exis) + ENDLESS == Frame(b[8..n]) + (Frames(more) + ENDLESS);
    }
  }

  lemma NoFrames()
    ensures AllFit([]) && Frames([]) + ENDLESS == ENDLESS
  {
  }

  lemma FramesCons(exi: Data, more: seq<Data>)
    requires |exi| <= RX_CAPACITY - HEADER && AllFit(more)
    ensures AllFit([exi] + more) && Frames([exi] + more) == Frame(exi) + Frames(more)
  {
    assert ([exi] + more)[1..] == more;
  }

  lemma {:induction false} EndlessSpins(b: Data, exis: seq<Data>)
    requires EndlessAfter(b, exis)
    ensures Deframe(b).end == Spinning
    decreases |exis|
  {
    DeframeStep(b);
    EndlessHeader(b);
    hide Deframe, NextFrame, Frame, Frames;
    if exis == [] {
      NoFrames();
    } else {
      var more := exis[1..];
      assert exis == [exis[0]] + more;
      FramesCons(exis[0], more);
      var f := Frame(exis[0]);
      var rest := b[|f|..];
      assert b == f + rest && Frames(more) + ENDLESS <= rest;
      FrameIsTaken(exis[0], rest);
      EndlessSpins(rest, more);
    }
  }

  /** The loop spins for ever exactly when the buffered bytes are complete valid frames followed by an EXI
      header with length field 2^32 - 8, whatever comes after. */
  lemma SpinsExactly(b: Data)
    ensures Deframe(b).end == Spinning <==> exists exis: seq<Data> :: EndlessAfter(b, exis)
  {
    hide Deframe, EndlessAfter;
    if Deframe(b).end == Spinning {
      var exis := SpinFound(b);
    }
    if exis: seq<Data> :| EndlessAfter(b, exis) {
      EndlessSpins(b, exis);
    }
  }

  // ---------------------------------------------------------------- what is rejected

  /** The bytes end the session: a wrong version, a declared length above the buffer, a complete message of
      another type, or behind a wrapped length of one to seven eight further bytes. */
  predicate Malformed(b: Data) {
    |b| >= 8 &&
    var n := (8 + Be32(b, 4)) % TWO32;
    || b[0] != 0x01 || b[1] != 0xFE || n > 1000
    || (n <= |b| && (b[2] != 0x80 || b[3] != 0x01))
    || (1 <= n <= 7 && |b| >= n + 8)
  }

  /** b starts with the frames of these EXI bodies, and what follows is malformed. */
  predicate MalformedAfter(b: Data, exis: seq<Data>) {
    AllFit(exis) && Frames(exis) <= b && Malformed(b[|Frames(exis)|..])
  }

  /** At the front of a buffer: malformed bytes are rejected, at once or behind a piece of their header. */
  lemma MalformedFront(b: Data)
    ensures NextFrame(b) == Bad ==> Malformed(b)
    ensures NextFrame(b).Take? && 0 < NextFrame(b).len < 8 ==> (Malformed(b) <==> Deframe(b).end == Rejected)
    ensures NextFrame(b) == Wait || NextFrame(b) == Take(0) ==> !Malformed(b)
    ensures NextFrame(b).Take? && NextFrame(b).len >= 8 ==> !Malformed(b)
  {
    hide Deframe;
    if |b| >= 8 {
      LengthWraps(b);
    }
    if NextFrame(b).Take? && 0 < NextFrame(b).len < 8 {
      FragmentRest(b);
    }
  }

  /** Behind a piece of a header nothing is a frame. */
  lemma FragmentRest(b: Data)
    requires NextFrame(b).Take? && 0 < NextFrame(b).len < 8
    ensures Deframe(b).end == Rejected <==> |b| >= NextFrame(b).len + 8
  {
    hide Deframe;
    FragmentLength(b);
    WrappedBytes(b);
    var n := NextFrame(b).len;
    var rest := b[n..];
    assert |rest| >= 8 ==> rest[0] == b[n] && rest[1] == b[n + 1];
    assert NextFrame(rest) == if |rest| >= 8 then Bad else Wait;
    DeframeStep(rest);
    DeframeStep(b);
  }

  lemma FragmentLength(b: Data)
    requires NextFrame(b).Take? && 0 < NextFrame(b).len < 8
    ensures Be32(b, 4) > TWO32 - HEADER
  {
  }

  lemma {:induction false} MalformedFound(b: Data) returns (exis: seq<Data>)
    requires Deframe(b).end == Rejected
    ensures MalformedAfter(b, exis)
    decreases |b|
  {
    DeframeStep(b);
    MalformedFront(b);
    hide Deframe, NextFrame, Frame, Frames, Malformed;
    if Malformed(b) {
      exis := [];
      NoFrames();
      assert b[0..] == b;
    } else {
      var n := NextFrame(b).len;
      TakenIsFrame(b);
      var more := MalformedFound(b[n..]);
      exis := [b[8..n]] + more;
      FramesCons(b[8..n], more);
      FrontDropped(b, Frame(b[8..n]), Frames(more));
    }
  }

  lemma FrontDropped(b: Data, f: Data, g: Data)
    requires f <= b && g <= b[|f|..]
    ensures f + g <= b && b[|f + g|..] == b[|f|..][|g|..]
  {
  }

  lemma {:induction false} MalformedRejects(b: Data, exis: seq<Data>)
    requires MalformedAfter(b, exis)
    ensures Deframe(b).end == Rejected
    decreases |exis|
  {
    DeframeStep(b);
    MalformedFront(b);
    hide Deframe, NextFrame, Frame, Frames, Malformed;
    if exis == [] {
      NoFrames();
      assert b[0..] == b;
    } else {
      var more := exis[1..];
      assert exis == [exis[0]] + more;
      FramesCons(exis[0], more);
      var f := Frame(exis[0]);
      var rest := b[|f|..];
      assert f <= f + Frames(more) <= b;
      assert b == f + rest;
      assert (f + rest)[|f|..] == rest && Frames(more) <= rest;
      FrontDropped(b, f, Frames(more));
      FrameIsTaken(exis[0], rest);
      MalformedRejects(rest, more);
    }
  }

  /** Reassembly rejects the buffered bytes exactly when they are complete valid frames followed by malformed
      bytes; a message of another type is waited for until it is complete. */
  lemma RejectedExactly(b: Data)
    ensures Deframe(b).end == Rejected <==> exists exis: seq<Data> :: MalformedAfter(b, exis)
  {
    hide Deframe, MalformedAfter;
    if Deframe(b).end == Rejected {
      var exis := MalformedFound(b);
    }
    if exis: seq<Data> :| MalformedAfter(b, exis) {
      MalformedRejects(b, exis);
    }
  }

  // ---------------------------------------------------------------- the 8-bit length counter

  /** A whole valid frame arriving in one chunk is handed over exactly when it fits 255 bytes. */
  lemma WholeFrameDelivered(exi: Data)
    requires 0 < |exi| <= RX_CAPACITY - HEADER
    ensures Feed([], Frame(exi)).frames == [Frame(exi)] <==> HEADER + |exi| <= 255
  {
    hide Deframe, NextFrame;
    var f := Frame(exi);
    var got := Accept([], f);
    assert [] + f == f && got == f[..|f| % 256];
    DeframeStep(got);
    if |f| <= 255 {
      assert got == f && f + [] == f;
      FrameIsTaken(exi, []);
      DeframeEmpty();
      assert [f] + [] == [f];
    } else {
      PartialIsAwaited(exi, got, f[|f| % 256..]);
    }
  }

  lemma DeframeEmpty()
    ensures Deframe([]) == Deframed([], [], Pending)
  {
  }

  lemma {:induction false} FramesWithin(b: Data)
    ensures forall f :: f in Deframe(b).frames ==> |f| <= |b|
    decreases |b|
  {
    match NextFrame(b)
    case Take(n) =>
      if n > 0 {
        FramesWithin(b[n..]);
      }
    case _ =>
  }

  /** Whatever arrives in whatever pieces, no frame longer than 255 bytes is ever handed over. */
  lemma {:induction false} LongFramesNeverDelivered(buf: Data, chunks: seq<Data>)
    ensures forall f :: f in FeedAll(buf, chunks).frames ==> |f| <= 255
    decreases |chunks|
  {
    if chunks != [] {
      FramesWithin(Accept(buf, chunks[0]));
      LongFramesNeverDelivered(Feed(buf, chunks[0]).rest, chunks[1..]);
    }
  }
}
