/** src/iso_watchdog.cpp: the per-state deadline of an ISO 15118-2 session. */
module IsoWatchdog {
  import opened Bytes

  datatype Watchdog = Watchdog(
    timeout: u32, maxRetries: byte,
    active: bool, state: nat, start: u32, retries: byte)

  datatype Verdict = Ok | Timeout | Fatal

  function Clear(w: Watchdog): Watchdog {
    w.(active := false, retries := 0, start := 0, state := 0)
  }

  function Start(w: Watchdog, state: nat, now: u32): Watchdog {
    w.(state := state, start := now, active := true)
  }

  /** The signed comparison of the 32-bit clock with the deadline. */
  predicate Expired(w: Watchdog, now: u32) {
    w.active && w.timeout != 0 &&
    Signed32(Sub32(now, (w.start + w.timeout) % TWO32)) > 0
  }

  function Check(w: Watchdog, now: u32): (Watchdog, Verdict) {
    if !Expired(w, now) then (w, Ok)
    else
      var n := (w.retries + 1) % 256;
      (w.(retries := n, active := false),
       if n >= w.maxRetries && w.maxRetries > 0 then Fatal else Timeout)
  }

  /** The wrapped comparison fires exactly in the first 2^31 - 1 ms of every 2^32 ms past the
      deadline; within 2^31 ms of the deadline that is exactly "the deadline has passed". */
  lemma ExpiredExact(w: Watchdog, started: nat, now: nat)
    requires w.active && w.timeout != 0 && w.start == Millis(started)
    ensures Expired(w, Millis(now)) <==> 0 < (now - started - w.timeout) % TWO32 < TWO31
    ensures -TWO31 <= now - started - w.timeout < TWO31 ==>
              (Expired(w, Millis(now)) <==> now > started + w.timeout)
  {
    var d := now - started - w.timeout;
    var deadline := (w.start + w.timeout) % TWO32;
    var x := Sub32(Millis(now), deadline);
    var k := now / TWO32 - started / TWO32 - (w.start + w.timeout) / TWO32;
    assert Millis(now) - deadline == d - k * TWO32;
    ModShift(d, -k);
    assert x == d % TWO32;
  }

  lemma {:induction false} ModShift(d: int, k: int)
    ensures (d + k * TWO32) % TWO32 == d % TWO32
  {
    var q := d / TWO32;
    assert d + k * TWO32 == (q + k) * TWO32 + d % TWO32;
  }

  /** One missed 24.8-day window is enough to lose the deadline: the comparison is not a timeout
      for arbitrarily late checks. */
  lemma ExpiredCanMiss()
    ensures exists w: Watchdog, started: nat, now: nat ::
              w.active && w.timeout == 4000 && w.start == Millis(started) &&
              now > started + w.timeout && !Expired(w, Millis(now))
  {
    var w := Watchdog(4000, 3, true, 1, 0, 0);
    assert w.start == Millis(0) && TWO31 + 4000 > 0 + w.timeout;
    assert !Expired(w, Millis(TWO31 + 4000));
  }

  class IsoWatchdogUnit {
    var timeoutMs: u32
    var maxRetries: byte
    var activeState: nat
    var stateStartMs: u32
    var retryCount: byte
    var active: bool

    ghost function State(): Watchdog
      reads this
    {
      Watchdog(timeoutMs, maxRetries, active, activeState, stateStartMs, retryCount)
    }

    constructor Configure(timeout: u32, retries: byte)
      ensures State() == Watchdog(timeout, retries, false, 0, 0, 0)
    {
      timeoutMs, maxRetries := timeout, retries;
      active, retryCount, stateStartMs, activeState := false, 0, 0, 0;
    }

    method StartState(state: nat, now: u32)
      modifies this
      ensures State() == Start(old(State()), state, now)
    {
      activeState := state;
      stateStartMs := now;
      active := true;
    }

    method ClearAll()
      modifies this
      ensures State() == Clear(old(State()))
    {
      active := false;
      retryCount := 0;
      stateStartMs := 0;
      activeState := 0;
    }

    method CheckNow(now: u32) returns (v: Verdict)
      modifies this
      ensures (State(), v) == Check(old(State()), now)
    {
      if !active || timeoutMs == 0 {
        return Ok;
      }
      if Signed32(Sub32(now, (stateStartMs + timeoutMs) % TWO32)) <= 0 {
        return Ok;
      }
      retryCount := (retryCount + 1) % 256;
      active := false;
      if retryCount >= maxRetries && maxRetries > 0 {
        return Fatal;
      }
      return Timeout;
    }
  }
}
