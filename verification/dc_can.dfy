/** src/dc_can.cpp: DC module targets, setpoints, the ramp and the commands put on the CAN bus. */
module DcCan {
  import opened Bytes

  /** One "set all" command as it is handed to the CAN driver; `off` is the turn-off flag. */
  datatype Command = Command(off: bool, volts: real, amps: real)

  datatype Dc = Dc(
    canOk: bool, enabled: bool,
    vTarget: real, iTarget: real,
    vSet: real, iSet: real,
    lastRamp: u32,
    bus: seq<Command>)

  const STEP_V: real := 5.0   // 50 V/s for 100 ms
  const STEP_I: real := 2.0   // 20 A/s for 100 ms
  const RAMP_TICK_MS: int := 100
  const RESEND: real := 0.5

  /** State after a successful controller initialisation. */
  function Initial(canOk: bool): Dc {
    Dc(canOk, false, 0.0, 0.0, 0.0, 0.0, 0, [])
  }

  function Abs(x: real): real {
    if x < 0.0 then -x else x
  }

  function Send(d: Dc, off: bool): Dc {
    d.(bus := d.bus + [Command(off, Abs(d.vSet), Abs(d.iSet))])
  }

  function EnableOutput(d: Dc, on: bool): (r: Dc)
    ensures Sound(d) ==> Sound(r)
    ensures !on ==> !r.enabled
  {
    if !d.canOk then d.(enabled := false)
    else if on == d.enabled then d
    else if on then d.(enabled := true)
    else Send(d.(enabled := false, vTarget := 0.0, iTarget := 0.0, vSet := 0.0, iSet := 0.0), true)
  }

  function SetTargets(d: Dc, v: real, i: real): (r: Dc)
    ensures Sound(d) ==> Sound(r)
    ensures r.enabled == d.enabled
  {
    d.(vTarget := if v < 0.0 then 0.0 else v, iTarget := if i < 0.0 then 0.0 else i)
  }

  function EmergencyStop(d: Dc): Dc {
    if !d.canOk then d
    else d.(enabled := false, vTarget := 0.0, iTarget := 0.0, vSet := 0.0, iSet := 0.0)
  }

  function Approach(current: real, target: real, step: real): real {
    if current < target then (if target < current + step then target else current + step)
    else if current > target then (if target > current - step then target else current - step)
    else current
  }

  predicate RampDue(d: Dc, now: u32) {
    d.canOk && Signed32(Sub32(now, d.lastRamp)) >= RAMP_TICK_MS
  }

  function GoalV(d: Dc): real { if d.enabled then d.vTarget else 0.0 }
  function GoalI(d: Dc): real { if d.enabled then d.iTarget else 0.0 }

  /** One ramp step, the clock guard already passed. */
  function RampStep(d: Dc, now: u32): Dc {
    var v := Approach(d.vSet, GoalV(d), STEP_V);
    var i := Approach(d.iSet, GoalI(d), STEP_I);
    var moved := d.(vSet := v, iSet := i, lastRamp := now);
    if Abs(v - d.vSet) > RESEND || Abs(i - d.iSet) > RESEND then Send(moved, false) else moved
  }

  function RampTick(d: Dc, now: u32): Dc {
    if RampDue(d, now) then RampStep(d, now) else d
  }

  // ---------------------------------------------------------------- runs

  datatype DcEvent =
    | Enable(on: bool)
    | Targets(v: real, i: real)
    | Ramp(now: u32)
    | Emergency

  function Apply(d: Dc, e: DcEvent): Dc {
    match e
    case Enable(on) => EnableOutput(d, on)
    case Targets(v, i) => SetTargets(d, v, i)
    case Ramp(now) => RampTick(d, now)
    case Emergency => EmergencyStop(d)
  }

  function RunDc(d: Dc, es: seq<DcEvent>): Dc {
    if es == [] then d else Apply(RunDc(d, es[..|es| - 1]), es[|es| - 1])
  }

  /** A disabled output has both setpoints at zero, targets and setpoints are never negative, and
      without a working controller the output is never enabled. */
  predicate Sound(d: Dc) {
    && (!d.enabled ==> d.vSet == 0.0 && d.iSet == 0.0)
    && d.vTarget >= 0.0 && d.iTarget >= 0.0 && d.vSet >= 0.0 && d.iSet >= 0.0
    && (!d.canOk ==> !d.enabled)
  }

  lemma {:induction false} DisabledMeansZero(canOk: bool, es: seq<DcEvent>)
    ensures Sound(RunDc(Initial(canOk), es))
  {
    if es != [] {
      DisabledMeansZero(canOk, es[..|es| - 1]);
    }
  }

  /** In any run one event moves a setpoint by at most one step towards its goal and never past it,
      unless the event switches the output off, which zeroes both. */
  lemma {:induction false} StepBound(canOk: bool, es: seq<DcEvent>, e: DcEvent)
    ensures var d := RunDc(Initial(canOk), es); var d' := Apply(d, e);
            || (d.enabled && !d'.enabled && d'.vSet == 0.0 && d'.iSet == 0.0)
            || (&& Abs(d'.vSet - d.vSet) <= STEP_V && Abs(d'.iSet - d.iSet) <= STEP_I
                && (d.vSet <= d'.vSet <= GoalV(d) || GoalV(d) <= d'.vSet <= d.vSet || d'.vSet == d.vSet)
                && (d.iSet <= d'.iSet <= GoalI(d) || GoalI(d) <= d'.iSet <= d.iSet || d'.iSet == d.iSet))
  {
    DisabledMeansZero(canOk, es);
  }

  // ---------------------------------------------------------------- how fast a setpoint rises

  /** An event and the true time, in ms since power-up, at which it is handled. */
  datatype TimedDc = TimedDc(e: DcEvent, at: nat)

  /** Time does not run backwards, and ramp ticks read its low 32 bits. */
  predicate OnTime(ts: seq<TimedDc>) {
    ts != [] ==>
      var p, last := ts[..|ts| - 1], ts[|ts| - 1];
      OnTime(p) && TimeOf(p) <= last.at && (last.e.Ramp? ==> last.e.now == Millis(last.at))
  }

  function TimeOf(ts: seq<TimedDc>): nat {
    if ts == [] then 0 else ts[|ts| - 1].at
  }

  function RunTimed(d: Dc, ts: seq<TimedDc>): Dc {
    if ts == [] then d else Apply(RunTimed(d, ts[..|ts| - 1]), ts[|ts| - 1].e)
  }

  /** True time of the last ramp step. */
  function LastStep(d: Dc, ts: seq<TimedDc>): nat {
    if ts == [] then 0
    else
      var p, last := ts[..|ts| - 1], ts[|ts| - 1];
      if last.e.Ramp? && RampDue(RunTimed(d, p), last.e.now) then last.at else LastStep(d, p)
  }

  /** A due ramp tick comes at least 100 ms after the last ramp step, wrapped clock or not. */
  lemma DueIsLate(d: Dc, step: nat, at: nat)
    requires d.lastRamp == Millis(step) && step <= at && RampDue(d, Millis(at))
    ensures at >= step + 100
  {
    if at < step + TWO32 {
      ElapsedExact(step, at);
    }
  }

  lemma {:induction false} StepKept(canOk: bool, ts: seq<TimedDc>)
    requires OnTime(ts)
    ensures var d := Initial(canOk);
            && RunTimed(d, ts).lastRamp == Millis(LastStep(d, ts))
            && LastStep(d, ts) <= TimeOf(ts) && Sound(RunTimed(d, ts))
  {
    if ts != [] {
      StepKept(canOk, ts[..|ts| - 1]);
    }
  }

  /** One event raises a setpoint only by a ramp step, and by 5 V and 2 A at most. */
  lemma OneRise(d: Dc, e: DcEvent)
    requires Sound(d)
    ensures var r := Apply(d, e); var due := e.Ramp? && RampDue(d, e.now);
            && (due ==> r.vSet <= d.vSet + 5.0 && r.iSet <= d.iSet + 2.0)
            && (!due ==> r.vSet <= d.vSet && r.iSet <= d.iSet)
  {
  }

  /** In any run, against an unbounded clock, the setpoints rise between any two moments s and t by at most as
      many steps of 5 V and 2 A as whole 100 ms lie between them, plus one: 50 V/s and 20 A/s. */
  lemma {:induction false} RateBound(canOk: bool, ts: seq<TimedDc>, n: nat) returns (steps: nat)
    requires OnTime(ts) && n <= |ts|
    ensures var d := Initial(canOk); var s, t := TimeOf(ts[..n]), TimeOf(ts);
            var from, to := RunTimed(d, ts[..n]), RunTimed(d, ts);
            && to.vSet <= from.vSet + 5.0 * (steps as real) && to.iSet <= from.iSet + 2.0 * (steps as real)
            && s <= t && (steps > 0 ==> 100 * (steps - 1) <= t - s)
            && (steps > 0 ==> s + 100 * (steps - 1) <= LastStep(d, ts))
    decreases |ts|
  {
    StepKept(canOk, ts);
    if |ts| == n {
      assert ts[..n] == ts;
      steps := 0;
    } else {
      var p, last := ts[..|ts| - 1], ts[|ts| - 1];
      assert p[..n] == ts[..n];
      var before := RateBound(canOk, p, n);
      var d := RunTimed(Initial(canOk), p);
      StepKept(canOk, p);
      hide Apply, RampDue, Sound;
      OneRise(d, last.e);
      if last.e.Ramp? && RampDue(d, last.e.now) {
        DueIsLate(d, LastStep(Initial(canOk), p), last.at);
        steps := before + 1;
      } else {
        steps := before;
      }
    }
  }

  // ---------------------------------------------------------------- reaching a constant target

  /** Ramp events at the given clock readings, with nothing else happening. */
  function Ramps(d: Dc, clocks: seq<u32>): Dc {
    if clocks == [] then d else RampTick(Ramps(d, clocks[..|clocks| - 1]), clocks[|clocks| - 1])
  }

  /** How many of them find the 100 ms over. */
  function DueTicks(d: Dc, clocks: seq<u32>): nat {
    if clocks == [] then 0
    else
      var p := clocks[..|clocks| - 1];
      DueTicks(d, p) + (if RampDue(Ramps(d, p), clocks[|clocks| - 1]) then 1 else 0)
  }

  function RampEvents(clocks: seq<u32>): seq<DcEvent> {
    seq(|clocks|, k requires 0 <= k < |clocks| => Ramp(clocks[k]))
  }

  /** These are the runs of ramp events. */
  lemma {:induction false} RampsAreRuns(d: Dc, clocks: seq<u32>)
    ensures RunDc(d, RampEvents(clocks)) == Ramps(d, clocks)
  {
    if clocks != [] {
      var n := |clocks| - 1;
      RampsAreRuns(d, clocks[..n]);
      assert RampEvents(clocks)[..n] == RampEvents(clocks[..n]);
      assert RampEvents(clocks)[n] == Ramp(clocks[n]);
    }
  }

  function Toward(from: real, goal: real, travel: real): real {
    if from <= goal then (if goal - from <= travel then goal else from + travel)
    else (if from - goal <= travel then goal else from - travel)
  }

  lemma TowardStep(from: real, goal: real, travel: real, step: real)
    requires travel >= 0.0 && step > 0.0
    ensures Approach(Toward(from, goal, travel), goal, step) == Toward(from, goal, travel + step)
  {
  }

  lemma Accumulate(n: nat, step: real)
    requires step > 0.0
    ensures n as real * step >= 0.0
    ensures n as real * step + step == (n + 1) as real * step
  {
    assert (n + 1) as real == n as real + 1.0;
  }

  /** Closed form: with n due ticks each setpoint has travelled n steps' worth, or has arrived. */
  lemma {:induction false} RampClosedForm(d: Dc, clocks: seq<u32>)
    ensures var r, n := Ramps(d, clocks), DueTicks(d, clocks);
            && r.vSet == Toward(d.vSet, GoalV(d), n as real * STEP_V)
            && r.iSet == Toward(d.iSet, GoalI(d), n as real * STEP_I)
            && GoalV(r) == GoalV(d) && GoalI(r) == GoalI(d)
  {
    if clocks != [] {
      hide RampDue;
      var p := clocks[..|clocks| - 1];
      RampClosedForm(d, p);
      var n := DueTicks(d, p);
      Accumulate(n, STEP_V);
      Accumulate(n, STEP_I);
      TowardStep(d.vSet, GoalV(d), n as real * STEP_V, STEP_V);
      TowardStep(d.iSet, GoalI(d), n as real * STEP_I, STEP_I);
    }
  }

  /** A constant target is reached exactly when the number of due ticks reaches ceil(distance / step). */
  lemma ReachesTargetExactly(d: Dc, clocks: seq<u32>)
    ensures var r, n := Ramps(d, clocks), DueTicks(d, clocks);
            && (r.vSet == GoalV(d) <==> Abs(GoalV(d) - d.vSet) <= n as real * STEP_V)
            && (r.iSet == GoalI(d) <==> Abs(GoalI(d) - d.iSet) <= n as real * STEP_I)
  {
    hide Ramps, DueTicks;
    RampClosedForm(d, clocks);
  }

  // ---------------------------------------------------------------- what the modules were last told

  /** The setpoints carried by the last command on the bus; zero before the first one. */
  function LastV(d: Dc): real { if d.bus == [] then 0.0 else d.bus[|d.bus| - 1].volts }
  function LastI(d: Dc): real { if d.bus == [] then 0.0 else d.bus[|d.bus| - 1].amps }

  /** Either the modules hold the setpoint, or it sits at its goal within the resend margin. */
  predicate Told(setp: real, goal: real, last: real) {
    last == setp || (setp == goal && Abs(setp - last) <= RESEND)
  }

  lemma ApproachTold(setp: real, goal: real, step: real, last: real)
    requires Told(setp, goal, last) && step > RESEND
    requires Abs(Approach(setp, goal, step) - setp) <= RESEND
    ensures Told(Approach(setp, goal, step), goal, last)
  {
  }

  /** Both setpoints are told. */
  predicate InStep(d: Dc) {
    Told(d.vSet, GoalV(d), LastV(d)) && Told(d.iSet, GoalI(d), LastI(d))
  }

  lemma ToldStep(d: Dc, now: u32)
    requires Sound(d) && InStep(d)
    ensures var r := RampStep(d, now); Sound(r) && InStep(r) && GoalV(r) == GoalV(d) && GoalI(r) == GoalI(d)
  {
    var r := RampStep(d, now);
    if Abs(r.vSet - d.vSet) <= RESEND && Abs(r.iSet - d.iSet) <= RESEND {
      ApproachTold(d.vSet, GoalV(d), STEP_V, LastV(d));
      ApproachTold(d.iSet, GoalI(d), STEP_I, LastI(d));
    }
  }

  /** An output just enabled with these targets, and n due ticks later: before the first of them nothing has
      moved; after it the modules are in step when it moved more than the margin, and else were told nothing. */
  predicate SinceEnabled(d: Dc, r: Dc, n: nat) {
    && Sound(r) && GoalV(r) == GoalV(d) && GoalI(r) == GoalI(d)
    && (n == 0 ==> r.vSet == 0.0 && r.iSet == 0.0 && r.bus == d.bus)
    && (n > 0 && (GoalV(d) > RESEND || GoalI(d) > RESEND) ==> InStep(r))
    && (n > 0 && GoalV(d) <= RESEND && GoalI(d) <= RESEND ==>
          r.vSet == GoalV(d) && r.iSet == GoalI(d) && r.bus == d.bus)
  }

  lemma FirstStep(d: Dc, r: Dc, now: u32)
    requires Sound(d) && SinceEnabled(d, r, 0)
    ensures SinceEnabled(d, RampStep(r, now), 1)
  {
  }

  lemma LaterStep(d: Dc, r: Dc, n: nat, now: u32)
    requires Sound(d) && SinceEnabled(d, r, n) && n > 0
    ensures SinceEnabled(d, RampStep(r, now), n + 1)
  {
    if GoalV(d) > RESEND || GoalI(d) > RESEND {
      hide InStep, RampStep, Sound;
      ToldStep(r, now);
    }
  }

  lemma {:induction false} EnabledRamps(d: Dc, clocks: seq<u32>)
    requires Sound(d) && d.enabled && d.vSet == 0.0 && d.iSet == 0.0
    ensures SinceEnabled(d, Ramps(d, clocks), DueTicks(d, clocks))
  {
    if clocks != [] {
      hide SinceEnabled, RampStep, RampDue, Sound;
      var p, now := clocks[..|clocks| - 1], clocks[|clocks| - 1];
      EnabledRamps(d, p);
      if DueTicks(d, p) == 0 {
        FirstStep(d, Ramps(d, p), now);
      } else {
        LaterStep(d, Ramps(d, p), DueTicks(d, p), now);
      }
    } else {
      assert SinceEnabled(d, d, 0);
    }
  }

  /** The modules hold v and i within the resend margin. */
  predicate ToldWithin(d: Dc, v: real, i: real) {
    Abs(LastV(d) - v) <= RESEND && Abs(LastI(d) - i) <= RESEND
  }

  /** Enabling any disabled output, setting targets once and ramping long enough, at any clock readings,
      leaves the modules told the targets within 0.5 V and 0.5 A exactly when one target exceeds the margin
      (so that a command is sent at all) or what they were told last was already that close. */
  lemma EnabledOutputToldExactly(d: Dc, v: real, i: real, clocks: seq<u32>)
    requires Sound(d) && d.canOk && !d.enabled && v >= 0.0 && i >= 0.0
    requires var n := DueTicks(SetTargets(EnableOutput(d, true), v, i), clocks);
             n > 0 && v <= n as real * STEP_V && i <= n as real * STEP_I
    ensures var r := Ramps(SetTargets(EnableOutput(d, true), v, i), clocks);
            && r.vSet == v && r.iSet == i
            && (ToldWithin(r, v, i) <==> v > RESEND || i > RESEND || ToldWithin(d, v, i))
  {
    var e := SetTargets(EnableOutput(d, true), v, i);
    ReachesTargetExactly(e, clocks);
    EnabledRamps(e, clocks);
    hide Ramps, DueTicks, Sound;
  }

  // ---------------------------------------------------------------- over runs

  predicate NoEmergency(es: seq<DcEvent>) {
    forall k :: 0 <= k < |es| ==> es[k] != Emergency
  }

  /** Without an emergency stop, the modules of a disabled output were last told zero. */
  predicate ToldOff(d: Dc) {
    Sound(d) && (!d.enabled ==> LastV(d) == 0.0 && LastI(d) == 0.0)
  }

  lemma ToldOffStep(d: Dc, e: DcEvent)
    requires ToldOff(d) && e != Emergency
    ensures ToldOff(Apply(d, e)) && Apply(d, e).canOk == d.canOk
  {
  }

  lemma {:induction false} NoEmergencyToldOff(canOk: bool, es: seq<DcEvent>)
    requires NoEmergency(es)
    ensures ToldOff(RunDc(Initial(canOk), es)) && RunDc(Initial(canOk), es).canOk == canOk
  {
    if es != [] {
      hide Apply, ToldOff;
      var p := es[..|es| - 1];
      assert forall k :: 0 <= k < |p| ==> p[k] == es[k];
      NoEmergencyToldOff(canOk, p);
      ToldOffStep(RunDc(Initial(canOk), p), es[|es| - 1]);
    } else {
      assert ToldOff(Initial(canOk));
    }
  }

  /** So in every run without an emergency stop, enabling, setting targets and ramping long enough always
      leaves the modules told the targets within the margin. */
  lemma EnabledOutputIsTold(es: seq<DcEvent>, v: real, i: real, clocks: seq<u32>)
    requires NoEmergency(es) && !RunDc(Initial(true), es).enabled && v >= 0.0 && i >= 0.0
    requires var n := DueTicks(SetTargets(EnableOutput(RunDc(Initial(true), es), true), v, i), clocks);
             n > 0 && v <= n as real * STEP_V && i <= n as real * STEP_I
    ensures var r := Ramps(SetTargets(EnableOutput(RunDc(Initial(true), es), true), v, i), clocks);
            r.vSet == v && r.iSet == i && ToldWithin(r, v, i)
  {
    NoEmergencyToldOff(true, es);
    EnabledOutputToldExactly(RunDc(Initial(true), es), v, i, clocks);
  }

  /** An emergency stop switches off without a setpoint command: after this run the modules were last told
      5 V, and a later target of 0.4 V is never told to them, however long the ramp runs. */
  lemma EmergencyLeavesModulesTold(clocks: seq<u32>)
    ensures var d := RunDc(Initial(true), [Enable(true), Targets(5.0, 0.0), Ramp(100), Emergency]);
            && !d.enabled && LastV(d) == 5.0
            && LastV(Ramps(SetTargets(EnableOutput(d, true), 0.4, 0.0), clocks)) == 5.0
  {
    var es := [Enable(true), Targets(5.0, 0.0), Ramp(100), Emergency];
    assert es[..3] == [Enable(true), Targets(5.0, 0.0), Ramp(100)];
    assert es[..3][..2] == [Enable(true), Targets(5.0, 0.0)];
    assert es[..3][..2][..1] == [Enable(true)];
    assert es[..3][..2][..1][..0] == [];
    var d1 := Apply(Initial(true), Enable(true));
    var d2 := Apply(d1, Targets(5.0, 0.0));
    var d3 := Apply(d2, Ramp(100));
    var d := Apply(d3, Emergency);
    assert RunDc(Initial(true), es[..3][..2][..1]) == d1;
    assert RunDc(Initial(true), es[..3][..2]) == d2;
    assert RunDc(Initial(true), es[..3]) == d3;
    assert RunDc(Initial(true), es) == d;
    assert d3.vSet == 5.0 && LastV(d3) == 5.0 && d.bus == d3.bus;
    EnabledRamps(SetTargets(EnableOutput(d, true), 0.4, 0.0), clocks);
  }

  // ---------------------------------------------------------------- a creeping target

  /** One round: the target moves `step` past the voltage setpoint, then a ramp tick comes. */
  function CreepRound(d: Dc, step: real, now: u32): Dc {
    RampTick(SetTargets(d, d.vSet + step, d.iSet), now)
  }

  function Creep(d: Dc, step: real, clocks: seq<u32>): Dc {
    if clocks == [] then d
    else CreepRound(Creep(d, step, clocks[..|clocks| - 1]), step, clocks[|clocks| - 1])
  }

  /** Rounds whose tick finds the 100 ms over. */
  function CreepTicks(d: Dc, step: real, clocks: seq<u32>): nat {
    if clocks == [] then 0
    else
      var p := clocks[..|clocks| - 1];
      CreepTicks(d, step, p) + (if RampDue(Creep(d, step, p), clocks[|clocks| - 1]) then 1 else 0)
  }

  lemma CreepRoundEffect(d: Dc, step: real, now: u32)
    requires Sound(d) && d.enabled && 0.0 < step <= STEP_V
    ensures var r := CreepRound(d, step, now);
            && Sound(r) && r.enabled
            && (RampDue(d, now) ==> r.vSet == d.vSet + step
                                    && (if step > RESEND then LastV(r) == r.vSet else r.bus == d.bus))
            && (!RampDue(d, now) ==> r.vSet == d.vSet && r.bus == d.bus)
  {
  }

  /** n rounds' worth of travel, as a repeated sum. */
  function Travel(n: nat, step: real): real {
    if n == 0 then 0.0 else Travel(n - 1, step) + step
  }

  lemma NextTravel(n: nat, step: real)
    ensures Travel(n + 1, step) == Travel(n, step) + step
  {
  }

  lemma {:induction false} TravelIsProduct(n: nat, step: real)
    ensures Travel(n, step) == n as real * step
    ensures step > 0.0 && n > 0 ==> Travel(n, step) > 0.0
  {
    if n > 0 {
      TravelIsProduct(n - 1, step);
      assert (n - 1) as real == n as real - 1.0;
    }
  }

  /** After n due rounds. */
  predicate Crept(d: Dc, r: Dc, step: real, n: nat) {
    && Sound(r) && r.enabled && r.vSet == d.vSet + Travel(n, step)
    && (step <= RESEND ==> r.bus == d.bus)
    && (step > RESEND ==> LastV(r) == r.vSet)
  }

  lemma CreptOn(d: Dc, r: Dc, step: real, n: nat, now: u32)
    requires Crept(d, r, step, n) && 0.0 < step <= STEP_V
    ensures Crept(d, CreepRound(r, step, now), step, if RampDue(r, now) then n + 1 else n)
  {
    hide CreepRound, RampDue, Sound, Travel;
    CreepRoundEffect(r, step, now);
    NextTravel(n, step);
  }

  lemma {:induction false} CreepEffect(d: Dc, step: real, clocks: seq<u32>)
    requires Sound(d) && d.enabled && 0.0 < step <= STEP_V && LastV(d) == d.vSet
    ensures Crept(d, Creep(d, step, clocks), step, CreepTicks(d, step, clocks))
  {
    if clocks != [] {
      var p, now := clocks[..|clocks| - 1], clocks[|clocks| - 1];
      hide CreepRound, RampDue, Crept;
      CreepEffect(d, step, p);
      CreptOn(d, Creep(d, step, p), step, CreepTicks(d, step, p), now);
    }
  }

  /** A creeping target is followed by the setpoint, but the modules hear of it only when each round
      moves more than the resend margin: with smaller rounds the bus stays silent however far the
      setpoint has travelled. */
  lemma CreepToldExactlyAboveMargin(d: Dc, step: real, clocks: seq<u32>)
    requires Sound(d) && d.enabled && 0.0 < step <= STEP_V
    requires LastV(d) == d.vSet && CreepTicks(d, step, clocks) > 0
    ensures var r, n := Creep(d, step, clocks), CreepTicks(d, step, clocks);
            && r.vSet == d.vSet + n as real * step
            && (LastV(r) == r.vSet <==> step > RESEND)
            && (step <= RESEND ==> LastV(r) == d.vSet)
  {
    hide Creep, CreepTicks, Sound, Travel;
    CreepEffect(d, step, clocks);
    TravelIsProduct(CreepTicks(d, step, clocks), step);
  }

  // ---------------------------------------------------------------- the unit

  class DcUnit {
    var canOk: bool
    var enabled: bool
    var vTarget: real
    var iTarget: real
    var vSet: real
    var iSet: real
    var lastRampMs: u32
    ghost var bus: seq<Command>

    ghost function State(): Dc
      reads this
    {
      Dc(canOk, enabled, vTarget, iTarget, vSet, iSet, lastRampMs, bus)
    }

    constructor (controllerFound: bool)
      ensures State() == Initial(controllerFound)
    {
      canOk, enabled := controllerFound, false;
      vTarget, iTarget, vSet, iSet := 0.0, 0.0, 0.0, 0.0;
      lastRampMs := 0;
      bus := [];
    }

    method ApplySetpoints(turnOffOnly: bool)
      modifies this`bus
      ensures State() == Send(old(State()), turnOffOnly)
    {
      bus := bus + [Command(turnOffOnly, Abs(vSet), Abs(iSet))];
    }

    method Enable(on: bool)
      modifies this
      ensures State() == EnableOutput(old(State()), on)
    {
      if !canOk {
        enabled := false;
        return;
      }
      if on == enabled {
        return;
      }
      enabled := on;
      if !on {
        vTarget, iTarget, vSet, iSet := 0.0, 0.0, 0.0, 0.0;
        ApplySetpoints(true);
      }
    }

    method SetTargetValues(v: real, i: real)
      modifies this`vTarget, this`iTarget
      ensures State() == SetTargets(old(State()), v, i)
    {
      vTarget := if v < 0.0 then 0.0 else v;
      iTarget := if i < 0.0 then 0.0 else i;
    }

    method RampTickNow(now: u32)
      modifies this
      ensures State() == RampTick(old(State()), now)
    {
      if !canOk {
        return;
      }
      if Signed32(Sub32(now, lastRampMs)) < RAMP_TICK_MS {
        return;
      }
      lastRampMs := now;
      var prevV, prevI := vSet, iSet;
      var tgtV := if enabled then vTarget else 0.0;
      var tgtI := if enabled then iTarget else 0.0;
      vSet := Approach(vSet, tgtV, STEP_V);
      iSet := Approach(iSet, tgtI, STEP_I);
      if Abs(vSet - prevV) > RESEND || Abs(iSet - prevI) > RESEND {
        ApplySetpoints(false);
      }
    }

    method Stop()
      modifies this
      ensures State() == EmergencyStop(old(State()))
    {
      if !canOk {
        return;
      }
      enabled := false;
      vTarget, iTarget, vSet, iSet := 0.0, 0.0, 0.0, 0.0;
    }
  }
}
