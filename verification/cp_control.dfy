/** src/cp_control.cpp: contactor relay, plateau ring and the hysteretic control-pilot state. */
module CpControl {
  import opened Bytes

  // ---------------------------------------------------------------- contactor relay

  /** Commanded and last-read position; `wired` tells whether an auxiliary contact exists. */
  datatype Relay = Relay(wired: bool, cmd: bool, fb: bool)

  /** What the auxiliary contact reads: the pin, or the command itself where none is wired. */
  function Aux(r: Relay, pin: bool): bool {
    if r.wired then pin else r.cmd
  }

  /** `before` and `after` are the pin readings ahead of and behind the coil write. */
  function Drive(r: Relay, on: bool, before: bool, after: bool): (Relay, bool) {
    if on == r.cmd && r.fb == Aux(r, before) then (r, r.fb)
    else
      var moved := r.(cmd := on);
      var fb := on && Aux(moved, after);
      (moved.(fb := if on then Aux(moved, after) else false), fb)
  }

  function Feedback(r: Relay, pin: bool): Relay {
    r.(fb := Aux(r, pin))
  }

  /** A close command leaves the coil commanded whether or not it is confirmed, and is always
      confirmed where no contact is wired; an open command always releases the coil. */
  lemma DriveMeaning(r: Relay, before: bool, after: bool)
    ensures Drive(r, true, before, after).0.cmd
    ensures !r.wired && !r.cmd ==> Drive(r, true, before, after).1
    ensures !Drive(r, false, before, after).0.cmd
  {
  }

  /** Closing is confirmed by the contact as it reads after the coil is driven, or before, where the coil was
      driven already and the contact reads as remembered; without a contact it is always confirmed. After
      opening, the contact counts as closed exactly when the coil was released already and a contact that was
      remembered as closed still reads closed. */
  lemma DriveExactly(r: Relay, on: bool, before: bool, after: bool)
    ensures var (q, ok) := Drive(r, on, before, after);
            && q == Relay(r.wired, on, ok)
            && (on && r.wired ==> (ok <==> if r.cmd && r.fb == before then before else after))
            && (on && !r.wired ==> ok)
            && (!on ==> (ok <==> r.wired && !r.cmd && r.fb && before))
  {
  }

  // ---------------------------------------------------------------- pilot state over burst history

  datatype Pilot = A | B | C | D | E | F

  const T12: int := 2440
  const T9: int := 2080
  const STEP: int := 380
  const RING: nat := 24
  const DEMOTE: nat := 18

  /** What one burst of samples contributes. */
  datatype Burst = Burst(plateau: int, peak: int)

  function Classify(mv: int): Pilot {
    if mv >= T12 then A
    else if mv >= T9 then B
    else if mv >= T9 - STEP then C
    else if mv >= T9 - 2 * STEP then D
    else if mv >= T9 - 3 * STEP then E
    else F
  }

  predicate Demoted(p: Pilot) {
    p == C || p == D || p == E || p == F
  }

  predicate Connected(p: Pilot) {
    p == B || p == C || p == D
  }

  /** First burst index of the plateau window that ends the history. */
  function WindowStart(n: nat): nat {
    if n < RING then 0 else n - RING
  }

  /** Largest plateau from index lo on. */
  function MaxFrom(bs: seq<Burst>, lo: nat): int
    requires lo < |bs|
    decreases |bs| - lo
  {
    if lo + 1 == |bs| || bs[lo].plateau > MaxFrom(bs, lo + 1) then bs[lo].plateau
    else MaxFrom(bs, lo + 1)
  }

  /** MaxFrom is the maximum: it bounds the window and is one of its plateaus. */
  lemma {:induction false} MaxFromIsMax(bs: seq<Burst>, lo: nat, m: int)
    requires lo < |bs|
    ensures m == MaxFrom(bs, lo) <==>
              (forall k :: lo <= k < |bs| ==> bs[k].plateau <= m) &&
              (exists k :: lo <= k < |bs| && bs[k].plateau == m)
    decreases |bs| - lo
  {
    var rest := if lo + 1 < |bs| then MaxFrom(bs, lo + 1) else bs[lo].plateau;
    if lo + 1 < |bs| {
      MaxFromIsMax(bs, lo + 1, rest);
      MaxFromIsMax(bs, lo + 1, m);
    }
  }

  /** Number of bursts at the end of the history whose peak stays below the B threshold. */
  function BelowRun(bs: seq<Burst>): nat {
    if bs == [] || bs[|bs| - 1].peak >= T9 then 0 else BelowRun(bs[..|bs| - 1]) + 1
  }

  /** The run reaches n exactly when the last n bursts are all low. */
  lemma {:induction false} BelowRunMeans(bs: seq<Burst>, n: nat)
    ensures BelowRun(bs) >= n <==>
              n <= |bs| && (forall k :: |bs| - n <= k < |bs| ==> bs[k].peak < T9)
  {
    if bs != [] && n > 0 {
      var p := bs[..|bs| - 1];
      BelowRunMeans(p, n - 1);
      assert forall k :: 0 <= k < |p| ==> p[k] == bs[k];
      if n <= |bs| && (forall k :: |bs| - n <= k < |bs| ==> bs[k].peak < T9) {
        assert bs[|bs| - 1].peak < T9;
        forall k | |p| - (n - 1) <= k < |p| ensures p[k].peak < T9 {
          assert p[k] == bs[k];
        }
      }
      if BelowRun(bs) >= n {
        forall k | |bs| - n <= k < |bs| ensures bs[k].peak < T9 {
          if k < |p| {
            assert p[k] == bs[k];
          }
        }
      }
    }
  }

  function Tentative(bs: seq<Burst>): Pilot
    requires bs != []
  {
    Classify(MaxFrom(bs, WindowStart(|bs|)))
  }

  /** Pilot state after a history of bursts, from power-up state A. */
  function StateAfter(bs: seq<Burst>): Pilot {
    if bs == [] then A
    else
      var t := Tentative(bs);
      if StateAfter(bs[..|bs| - 1]) == B && Demoted(t) && BelowRun(bs) < DEMOTE then B else t
  }

  // ---------------------------------------------------------------- the state in millivolts

  /** Each of the last 24 plateaus is below mv. */
  predicate WindowBelow(bs: seq<Burst>, mv: int) {
    forall k :: 0 <= k < |bs| && k >= |bs| - 24 ==> bs[k].plateau < mv
  }

  /** The last 18 bursts, and there are as many, have their peaks below 2080 mV. */
  predicate EighteenLow(bs: seq<Burst>) {
    |bs| >= 18 && forall k :: |bs| - 18 <= k < |bs| ==> bs[k].peak < 2080
  }

  /** State B outlasts low plateaus until 18 bursts in a row are low. */
  predicate Held(bs: seq<Burst>)
    requires bs != []
  {
    StateAfter(bs[..|bs| - 1]) == B && WindowBelow(bs, 2080) && !EighteenLow(bs)
  }

  /** Of the last 24 plateaus none reaches hi and one reaches lo. */
  predicate WindowIn(bs: seq<Burst>, lo: int, hi: int) {
    WindowBelow(bs, hi) && !WindowBelow(bs, lo)
  }

  /** The window of a history that has begun lies below a level exactly when its maximum does. */
  lemma WindowMax(bs: seq<Burst>, mv: int)
    requires bs != []
    ensures WindowBelow(bs, mv) <==> MaxFrom(bs, WindowStart(|bs|)) < mv
  {
    var lo := WindowStart(|bs|);
    var m := MaxFrom(bs, lo);
    MaxFromIsMax(bs, lo, m);
    var k :| lo <= k < |bs| && bs[k].plateau == m;
    assert WindowBelow(bs, mv) ==> bs[k].plateau < mv;
  }

  lemma LowRun(bs: seq<Burst>)
    ensures EighteenLow(bs) <==> BelowRun(bs) >= DEMOTE
  {
    BelowRunMeans(bs, 18);
  }

  /** The pilot state after any history, by the plateaus of its last 24 bursts: A from 2440 mV, B from 2080, C
      from 1700, D from 1320, E from 940 and F below, except that a held B stays B. */
  lemma StateExactly(bs: seq<Burst>)
    requires bs != []
    ensures var s := StateAfter(bs);
            && (s == A <==> !WindowBelow(bs, 2440))
            && (s == B <==> Held(bs) || WindowIn(bs, 2080, 2440))
            && (s == C <==> !Held(bs) && WindowIn(bs, 1700, 2080))
            && (s == D <==> !Held(bs) && WindowIn(bs, 1320, 1700))
            && (s == E <==> !Held(bs) && WindowIn(bs, 940, 1320))
            && (s == F <==> !Held(bs) && WindowBelow(bs, 940))
  {
    hide MaxFrom, WindowBelow, EighteenLow, BelowRun;
    WindowMax(bs, 2440);
    WindowMax(bs, 2080);
    WindowMax(bs, 1700);
    WindowMax(bs, 1320);
    WindowMax(bs, 940);
    LowRun(bs);
  }

  /** A vehicle is seen: the window reaches 1320 mV and stays below 2440, or B is held. */
  predicate VehicleSeen(bs: seq<Burst>) {
    bs != [] && (Held(bs) || WindowIn(bs, 1320, 2440))
  }

  lemma ConnectedExactly(bs: seq<Burst>)
    ensures Connected(StateAfter(bs)) <==> VehicleSeen(bs)
  {
    if bs != [] {
      hide StateAfter, WindowBelow;
      StateExactly(bs);
      BelowMore(bs, 1700);
      BelowMore(bs, 2080);
    }
  }

  lemma BelowMore(bs: seq<Burst>, mv: int)
    ensures WindowBelow(bs, mv - 380) ==> WindowBelow(bs, mv)
    ensures WindowBelow(bs, mv) ==> WindowBelow(bs, mv + 360) && WindowBelow(bs, mv + 380)
  {
  }

  // ---------------------------------------------------------------- leaving B

  /** The state drops from B towards C..F exactly at a burst that completes at least 18 consecutive
      bursts with peak below the B threshold while every plateau of the 24-burst window is below it. */
  lemma LeavesBExactly(bs: seq<Burst>)
    requires bs != [] && StateAfter(bs[..|bs| - 1]) == B
    ensures Demoted(StateAfter(bs)) <==> LowSpell(bs, |bs|)
  {
    BelowRunMeans(bs, DEMOTE);
    var lo := WindowStart(|bs|);
    var m := MaxFrom(bs, lo);
    MaxFromIsMax(bs, lo, m);
    if m >= T9 {
      var k :| lo <= k < |bs| && bs[k].plateau == m;
    }
  }

  /** The bursts before position n end in 18 low peaks and a 24-burst window of low plateaus. */
  predicate LowSpell(bs: seq<Burst>, n: nat)
    requires n <= |bs|
  {
    && n >= DEMOTE
    && (forall k :: n - DEMOTE <= k < n ==> bs[k].peak < T9)
    && (forall k :: WindowStart(n) <= k < n ==> bs[k].plateau < T9)
  }

  /** Consequence over whole histories: between a B and a later demoted state lie 18 low bursts. */
  lemma {:induction false} DemotionNeedsLowSpell(bs: seq<Burst>, i: nat)
    requires i <= |bs| && StateAfter(bs[..i]) == B && Demoted(StateAfter(bs))
    requires forall k :: i <= k <= |bs| ==> StateAfter(bs[..k]) != A
    ensures exists n: nat :: i < n <= |bs| && LowSpell(bs, n)
    decreases |bs| - i
  {
    assert bs[..|bs|] == bs;
    var n := i + 1;
    var p := bs[..n];
    assert p[..i] == bs[..i];
    if Demoted(StateAfter(p)) {
      LeavesBExactly(p);
      PrefixSpell(bs, n);
    } else {
      DemotionNeedsLowSpell(bs, n);
    }
  }

  lemma PrefixSpell(bs: seq<Burst>, n: nat)
    requires n <= |bs| && LowSpell(bs[..n], n)
    ensures LowSpell(bs, n)
  {
    assert forall k :: 0 <= k < n ==> bs[..n][k] == bs[k];
  }

  // ---------------------------------------------------------------- the unit

  class CpUnit {
    const auxWired: bool
    var ring: array<int>
    var ringHead: nat
    var ringCount: nat
    var lastState: Pilot
    var belowBRun: nat
    var contactorCmd: bool
    var contactorFb: bool
    ghost var history: seq<Burst>

    ghost function RelayState(): Relay
      reads this
    {
      Relay(auxWired, contactorCmd, contactorFb)
    }

    predicate IsConnected()
      reads this
    {
      Connected(lastState)
    }

    /** The ring holds the plateau window of the history, and the counters follow the history. */
    ghost predicate Valid()
      reads this, ring
    {
      && RingHolds(history)
      && belowBRun == (if BelowRun(history) < 1000 then BelowRun(history) else 1000)
      && lastState == StateAfter(history)
    }

    constructor (wired: bool, pin: bool)
      ensures Valid() && fresh(ring) && history == []
      ensures RelayState() == Feedback(Relay(wired, false, false), pin)
    {
      auxWired := wired;
      ring := new int[RING](_ => 0);
      ringHead, ringCount := 0, 0;
      lastState, belowBRun := A, 0;
      contactorCmd, contactorFb := false, if wired then pin else false;
      history := [];
    }

    /** Head, count and window contents agree with history h. */
    ghost predicate RingHolds(h: seq<Burst>)
      reads this, ring
    {
      && ring.Length == RING
      && ringHead == |h| % RING
      && ringCount == (if |h| < RING then |h| else RING)
      && (forall k :: WindowStart(|h|) <= k < |h| ==> ring[k % RING] == h[k].plateau)
    }

    /** Writes a plateau over the oldest one of a full ring. */
    method RingPush(v: int, ghost h: seq<Burst>)
      requires h != [] && h[|h| - 1].plateau == v && RingHolds(h[..|h| - 1])
      modifies ring, this`ringHead, this`ringCount
      ensures RingHolds(h)
    {
      ghost var n := |h| - 1;
      ring[ringHead] := v;
      ringHead := (ringHead + 1) % RING;
      if ringCount < RING {
        ringCount := ringCount + 1;
      }
      forall k | WindowStart(|h|) <= k < |h| ensures ring[k % RING] == h[k].plateau {
        if k < n {
          SlotsDiffer(k, n);
          assert h[..n][k] == h[k];
        }
      }
    }

    /** Pushes a plateau and returns the maximum of the window that now ends the history. */
    method RingPushAndMax(v: int, ghost h: seq<Burst>) returns (mx: int)
      requires h != [] && h[|h| - 1].plateau == v && RingHolds(h[..|h| - 1])
      modifies ring, this`ringHead, this`ringCount
      ensures RingHolds(h) && mx == MaxFrom(h, WindowStart(|h|))
    {
      RingPush(v, h);
      mx := ring[0];
      var i := 1;
      while i < ringCount
        invariant 1 <= i <= ringCount
        invariant forall j :: 0 <= j < i ==> ring[j] <= mx
        invariant exists j :: 0 <= j < i && ring[j] == mx
      {
        if ring[i] > mx {
          mx := ring[i];
        }
        i := i + 1;
      }
      RingMaxIsWindowMax(h, mx);
    }

    lemma RingMaxIsWindowMax(h: seq<Burst>, mx: int)
      requires h != [] && RingHolds(h)
      requires forall j :: 0 <= j < ringCount ==> ring[j] <= mx
      requires exists j :: 0 <= j < ringCount && ring[j] == mx
      ensures mx == MaxFrom(h, WindowStart(|h|))
    {
      var lo := WindowStart(|h|);
      forall k | lo <= k < |h| ensures h[k].plateau <= mx {
        assert ring[k % RING] == h[k].plateau;
      }
      var j :| 0 <= j < ringCount && ring[j] == mx;
      var slot := SlotBurst(j, |h|);
      assert ring[slot % RING] == h[slot].plateau;
      MaxFromIsMax(h, lo, mx);
    }

    /** The classification half of a control-pilot tick. */
    method UpdateState(plateau: int, peak: int)
      requires Valid()
      modifies this`ringHead, this`ringCount, this`lastState, this`belowBRun, this`history, ring
      ensures Valid() && history == old(history) + [Burst(plateau, peak)]
    {
      ghost var h := history + [Burst(plateau, peak)];
      assert h[..|h| - 1] == history;
      assert BelowRun(h) == if peak >= T9 then 0 else BelowRun(history) + 1;
      assert StateAfter(h) == if lastState == B && Demoted(Tentative(h)) && BelowRun(h) < DEMOTE
                              then B else Tentative(h);
      var robust := RingPushAndMax(plateau, h);
      belowBRun := if peak >= T9 then 0 else if belowBRun + 1 < 1000 then belowBRun + 1 else 1000;
      var tentative := Classify(robust);
      var newState := tentative;
      if lastState == B && (tentative == C || tentative == D || tentative == E || tentative == F) {
        if belowBRun < DEMOTE {
          newState := B;
        }
      }
      if newState != lastState {
        lastState := newState;
      }
      history := h;
    }

    /** One control-pilot tick: a commanded contactor is opened exactly when the history no longer shows a
        vehicle. */
    method Tick(plateau: int, peak: int, before: bool, after: bool)
      requires Valid()
      modifies this, ring
      ensures Valid() && ring == old(ring)
      ensures history == old(history) + [Burst(plateau, peak)]
      ensures RelayState() == (if !IsConnected() && old(contactorCmd)
                               then Drive(old(RelayState()), false, before, after).0
                               else old(RelayState()))
      ensures IsConnected() <==> VehicleSeen(history)
      ensures contactorCmd <==> old(contactorCmd) && VehicleSeen(history)
    {
      UpdateState(plateau, peak);
      ConnectedExactly(history);
      if !IsConnected() && contactorCmd {
        var _ := ContactorCommand(false, before, after);
      }
    }

    method ContactorCommand(on: bool, before: bool, after: bool) returns (ok: bool)
      modifies this`contactorCmd, this`contactorFb
      ensures (RelayState(), ok) == Drive(old(RelayState()), on, before, after)
      ensures old(Valid()) ==> Valid()
    {
      if on == contactorCmd && contactorFb == (if auxWired then before else contactorCmd) {
        return contactorFb;
      }
      contactorCmd := on;
      contactorFb := if auxWired then after else contactorCmd;
      if on && !contactorFb {
        return false;
      }
      if !on {
        contactorFb := false;
      }
      return contactorFb;
    }

    method ContactorFeedback(pin: bool) returns (fb: bool)
      modifies this`contactorFb
      ensures RelayState() == Feedback(old(RelayState()), pin) && fb == contactorFb
      ensures old(Valid()) ==> Valid()
    {
      contactorFb := if auxWired then pin else contactorCmd;
      return contactorFb;
    }
  }

  /** Two bursts of one window sit in different ring slots. */
  lemma SlotsDiffer(k: nat, n: nat)
    requires n - RING < k < n
    ensures k % RING != n % RING
  {
  }

  /** The burst of the window that occupies ring slot j. */
  ghost function SlotBurst(j: nat, n: nat): (k: nat)
    requires j < (if n < RING then n else RING)
    ensures WindowStart(n) <= k < n && k % RING == j
  {
    if n <= RING then j
    else
      var q, r := (n - RING) / RING, (n - RING) % RING;
      if r <= j then q * RING + j else (q + 1) * RING + j
  }
}
