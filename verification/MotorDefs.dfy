/** Constants of the motor controller card, direction bytes, and the rate arithmetic of the motor driver.
    A rate is a clock divisor: a smaller number is a faster motion. */
module MotorDefs {

  const DIR_WEST: bv8 := 0x01
  const DIR_EAST: bv8 := 0x02
  const DIR_NORTH: bv8 := 0x04
  const DIR_SOUTH: bv8 := 0x08
  const DIR_HA: bv8 := 0x03
  const DIR_DEC: bv8 := 0x0C
  const POWER_OFF: bv8 := 0x80
  /** The C code stores the error result -1 of its direction planner in a byte. */
  const DIR_INVALID: bv8 := 0xFF

  /** Two direction bytes have a bit in common. */
  predicate Hits(a: bv8, b: bv8) {
    a & b != 0
  }

  predicate HitsEither(a: bv8, b: bv8, dir: bv8) {
    (a | b) & dir != 0
  }

  const MAX_STEPS := 0xFFFFFF

  const RATE_SID := 57381
  const RATE_SLEW := 200
  const RATE_SET := 5578
  const RATE_SET_TRACK_W := 5084
  const RATE_SET_TRACK_E := 6179
  const RATE_GUIDE := 55780
  const RATE_GUIDE_TRACK_W := 28284
  const RATE_GUIDE_TRACK_E := 1999196
  const RATE_MIN := RATE_GUIDE_TRACK_W

  const TOLERANCE_HA := 3
  const TOLERANCE_DEC := 2
  const FLOP_HA := 2334
  const FLOP_DEC := 3177
  const HA_INIT_LIM := 45020
  const DEC_INIT_LIM := 22416
  const STEPS_PER_SEC := 31
  /** Sidereal steps in one 50 ms monitoring period: 50*31/1000 in integer arithmetic. */
  const STEPS_PER_TICK := 1

  const STEPS_E_LIM := 1155976
  const STEPS_N_LIM := 563056

  function Abs(x: int): nat {
    if x < 0 then -x else x
  }

  function CalcRate(dir: bv8, speed: int, trackingOn: bool): int {
    if speed == 3 then RATE_SLEW
    else if speed == 2 then
      if !trackingOn then RATE_SET
      else if Hits(dir, DIR_WEST) then RATE_SET_TRACK_W
      else if Hits(dir, DIR_EAST) then RATE_SET_TRACK_E
      else RATE_SET
    else if speed == 1 then
      if !trackingOn then RATE_GUIDE
      else if Hits(dir, DIR_WEST) then RATE_GUIDE_TRACK_W
      else if Hits(dir, DIR_EAST) then RATE_GUIDE_TRACK_E
      else RATE_GUIDE
    else 0
  }

  /** One ramping step from rateCur towards rateReq. */
  function CalcRampRate(rateCur: nat, rateReq: nat): nat {
    if rateReq < rateCur then
      var r := rateCur * 3 / 4;
      var r' := if r < rateReq then rateReq else r;
      if r' < RATE_SLEW then RATE_SLEW else r'
    else if rateCur == rateReq then rateReq
    else
      var r := rateCur * 4 / 3;
      var r' := if r > rateReq then rateReq else r;
      if r' > RATE_MIN then RATE_MIN else r'
  }

  function AtLeastMin(rate: int): int {
    if rate > RATE_MIN then rate else RATE_MIN
  }

  /** n ramping steps. */
  function Ramp(rate: nat, req: nat, n: nat): nat
    decreases n
  {
    if n == 0 then rate else Ramp(CalcRampRate(rate, req), req, n - 1)
  }

  /** Between slew and minimum rate a step moves strictly towards the request and never past it. */
  lemma RampIsStrict(rate: nat, req: nat)
    requires RATE_SLEW <= rate <= RATE_MIN && RATE_SLEW <= req <= RATE_MIN
    ensures rate < req ==> rate < CalcRampRate(rate, req) <= req
    ensures rate > req ==> req <= CalcRampRate(rate, req) < rate
    ensures rate == req ==> CalcRampRate(rate, req) == req
  {
  }

  /** The slowest possible climb: what n upward steps from slew rate reach at least. */
  function Climb(n: nat): nat {
    if n == 0 then RATE_SLEW else Climb(n - 1) * 4 / 3
  }

  /** The slowest possible fall: what n downward steps from minimum rate reach at most. */
  function Fall(n: nat): nat {
    if n == 0 then RATE_MIN else Fall(n - 1) * 3 / 4
  }

  /** Climb(n) and Fall(n), tabulated three steps at a time. */
  predicate At(n: nat, climb: nat, fall: nat) {
    Climb(n) == climb && Fall(n) == fall
  }

  lemma ThreeSteps(n: nat, c: nat, f: nat, c1: nat, f1: nat, c2: nat, f2: nat)
    requires At(n, c, f)
    requires c1 == c * 4 / 3 && f1 == f * 3 / 4
    requires c2 == c1 * 4 / 3 && f2 == f1 * 3 / 4
    ensures At(n + 1, c1, f1) && At(n + 2, c2, f2)
    ensures At(n + 3, c2 * 4 / 3, f2 * 3 / 4)
  {
    assert At(n + 1, c1, f1);
    assert At(n + 2, c2, f2);
  }

  lemma EighteenSteps(n: nat)
    requires At(n, RATE_SLEW, RATE_MIN)
    ensures At(n + 17, 26426, 211) && At(n + 18, 35234, 158)
  {
    hide Climb, Fall, At;
    ThreeSteps(n, 200, 28284, 266, 21213, 354, 15909);
    ThreeSteps(n + 3, 472, 11931, 629, 8948, 838, 6711);
    ThreeSteps(n + 6, 1117, 5033, 1489, 3774, 1985, 2830);
    ThreeSteps(n + 9, 2646, 2122, 3528, 1591, 4704, 1193);
    ThreeSteps(n + 12, 6272, 894, 8362, 670, 11149, 502);
    ThreeSteps(n + 15, 14865, 376, 19820, 282, 26426, 211);
  }

  lemma NoSteps()
    ensures At(0, RATE_SLEW, RATE_MIN)
  {
  }

  lemma ClimbAndFallTable()
    ensures At(17, 26426, 211) && At(18, 35234, 158)
  {
    hide Climb, Fall, At;
    NoSteps();
    EighteenSteps(0);
  }

  lemma {:induction false} RampFrom(rate: nat, req: nat, done: nat, n: nat)
    requires RATE_SLEW <= rate <= RATE_MIN && RATE_SLEW <= req <= RATE_MIN
    requires rate < req ==> rate >= Climb(done)
    requires rate > req ==> rate <= Fall(done)
    ensures RATE_SLEW <= Ramp(rate, req, n) <= RATE_MIN
    ensures var r := Ramp(rate, req, n);
            r == req || (r < req && r >= Climb(done + n)) || (r > req && r <= Fall(done + n))
    decreases n
  {
    if n > 0 {
      RampFrom(CalcRampRate(rate, req), req, done + 1, n - 1);
    }
  }

  lemma {:induction false} ClimbGrows(m: nat, n: nat)
    requires m <= n
    ensures RATE_SLEW <= Climb(m) <= Climb(n)
    decreases n
  {
    if m < n {
      ClimbGrows(m, n - 1);
    } else if n > 0 {
      ClimbGrows(n - 1, n - 1);
    }
  }

  lemma {:induction false} FallShrinks(m: nat, n: nat)
    requires m <= n
    ensures Fall(n) <= Fall(m)
    decreases n
  {
    if m < n {
      FallShrinks(m, n - 1);
    }
  }

  lemma EighteenStepsSpanTheRange(n: nat)
    requires n >= 18
    ensures Climb(0) == RATE_SLEW && Fall(0) == RATE_MIN
    ensures Climb(n) > RATE_MIN && Fall(n) < RATE_SLEW
  {
    ClimbAndFallTable();
    ClimbGrows(18, n);
    FallShrinks(18, n);
    assert Climb(0) == RATE_SLEW && Fall(0) == RATE_MIN;
    hide Climb, Fall;
  }

  /** Every request between slew and minimum rate is met within 18 steps. */
  lemma {:induction false} RampArrives(rate: nat, req: nat, n: nat)
    requires RATE_SLEW <= rate <= RATE_MIN && RATE_SLEW <= req <= RATE_MIN
    requires n >= 18
    ensures Ramp(rate, req, n) == req
  {
    EighteenStepsSpanTheRange(n);
    RampFrom(rate, req, 0, n);
  }

  lemma {:induction false} RampClimbs(m: nat, n: nat)
    requires Climb(m + n) <= RATE_MIN
    ensures Ramp(Climb(m), RATE_MIN, n) == Climb(m + n)
    decreases n
  {
    if n > 0 {
      ClimbGrows(m, m);
      ClimbGrows(m + 1, m + n);
      RampClimbs(m + 1, n - 1);
    }
  }

  /** The bound is tight: from slew rate the minimum rate is not reached in 17 steps. */
  lemma SeventeenStepsAreNotEnough()
    ensures Ramp(RATE_SLEW, RATE_MIN, 17) < RATE_MIN
  {
    hide Climb, Fall, Ramp;
    NoSteps();
    ClimbAndFallTable();
    RampClimbs(0, 17);
  }
}
