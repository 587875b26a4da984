/** Soft (altitude) limits and the goto planner.
    The limit tables are abstract: any two sequences of the right length. */
module SoftLimits {
  import opened MotorDefs

  /** The generated tables: west[i] and east[i] bound the hour angle at declination minDec + i. */
  datatype Limits = Limits(minDec: nat, west: seq<int>, east: seq<int>)

  datatype Pos = Pos(ha: int, dec: int)

  predicate Valid(t: Limits) {
    t.minDec <= STEPS_N_LIM && |t.west| == |t.east| == STEPS_N_LIM - t.minDec
  }

  /** The permitted hour angle range shrinks as the declination grows. */
  ghost predicate Nested(t: Limits)
    requires Valid(t)
  {
    forall i, j :: 0 <= i <= j < |t.west| ==> t.west[i] <= t.west[j] && t.east[j] <= t.east[i]
  }

  /** Directions that are forbidden at a position, 0 if it is clear. */
  function CheckSoftLims(t: Limits, ha: int, dec: int): bv8
    requires Valid(t)
  {
    if dec < t.minDec then 0
    else if dec >= STEPS_N_LIM then DIR_NORTH | DIR_WEST | DIR_EAST
    else
      (if ha < t.west[dec - t.minDec] then DIR_NORTH | DIR_WEST else 0) |
      (if ha > t.east[dec - t.minDec] then DIR_NORTH | DIR_EAST else 0)
  }

  predicate Clear(t: Limits, ha: int, dec: int)
    requires Valid(t)
  {
    CheckSoftLims(t, ha, dec) == 0
  }

  predicate InRange(p: Pos) {
    0 <= p.ha <= STEPS_E_LIM && 0 <= p.dec <= STEPS_N_LIM
  }

  /** Axis directions from one position to another, outside the tolerances. */
  function Towards(p: Pos, targ: Pos): bv8 {
    (if Abs(targ.dec - p.dec) > TOLERANCE_DEC
     then if targ.dec < p.dec then DIR_SOUTH else DIR_NORTH
     else 0) |
    (if Abs(targ.ha - p.ha) > TOLERANCE_HA
     then if targ.ha > p.ha then DIR_EAST else DIR_WEST
     else 0)
  }

  function CalcDirection(t: Limits, p: Pos, targ: Pos): bv8
    requires Valid(t)
  {
    if !InRange(targ) || !Clear(t, p.ha, p.dec) then DIR_INVALID
    else Towards(p, targ)
  }

  /** One axis at a time: declination first where that is safe, else hour angle first. */
  function CalcDirectionGoto(t: Limits, p: Pos, targ: Pos): bv8
    requires Valid(t)
  {
    var dir := CalcDirection(t, p, targ);
    if dir == DIR_INVALID || dir & DIR_DEC == 0 || dir & DIR_HA == 0 then dir
    else if Clear(t, p.ha, targ.dec) then dir & DIR_DEC
    else if Clear(t, targ.ha, p.dec) then dir & DIR_HA
    else DIR_INVALID
  }

  predicate HaDone(p: Pos, targ: Pos) {
    Abs(targ.ha - p.ha) <= TOLERANCE_HA
  }

  predicate DecDone(p: Pos, targ: Pos) {
    Abs(targ.dec - p.dec) <= TOLERANCE_DEC
  }

  // ---------------------------------------------------------------- geometry

  /** What the tables say, without direction bytes. */
  lemma ClearMeans(t: Limits, ha: int, dec: int)
    requires Valid(t)
    ensures Clear(t, ha, dec) <==>
              dec < t.minDec || (dec < STEPS_N_LIM && t.west[dec - t.minDec] <= ha <= t.east[dec - t.minDec])
  {
  }

  /** Nesting: what is clear stays clear further south. */
  lemma ClearFurtherSouth(t: Limits, ha: int, dec: int, south: int)
    requires Valid(t) && Nested(t)
    requires Clear(t, ha, dec) && south <= dec
    ensures Clear(t, ha, south)
  {
    ClearMeans(t, ha, dec);
    ClearMeans(t, ha, south);
  }

  /** At one declination the clear hour angles are an interval. */
  lemma ClearBetween(t: Limits, a: int, b: int, ha: int, dec: int)
    requires Valid(t)
    requires Clear(t, a, dec) && Clear(t, b, dec) && a <= ha <= b
    ensures Clear(t, ha, dec)
  {
    ClearMeans(t, a, dec);
    ClearMeans(t, b, dec);
    ClearMeans(t, ha, dec);
  }

  /** What the planner's answer means for each combination of axes still to be moved. */
  lemma DirectionMeans(t: Limits, p: Pos, targ: Pos)
    requires Valid(t) && InRange(targ) && Clear(t, p.ha, p.dec)
    ensures var dir := CalcDirectionGoto(t, p, targ);
            && (dir == 0 <==> HaDone(p, targ) && DecDone(p, targ))
            && (dir == DIR_INVALID <==>
                 (!HaDone(p, targ) && !DecDone(p, targ) && !Clear(t, p.ha, targ.dec) && !Clear(t, targ.ha, p.dec)))
            && (dir & DIR_DEC != 0 && dir != DIR_INVALID
                <==> !DecDone(p, targ) && (HaDone(p, targ) || Clear(t, p.ha, targ.dec)))
            && (dir & DIR_HA != 0 && dir != DIR_INVALID <==>
                 (!HaDone(p, targ) && (DecDone(p, targ) || (!Clear(t, p.ha, targ.dec) && Clear(t, targ.ha, p.dec)))))
            && (dir != DIR_INVALID ==> dir in {0, DIR_WEST, DIR_EAST, DIR_NORTH, DIR_SOUTH})
  {
  }

  /** The "should never happen" answer does not happen for a clear target. */
  lemma PlannerNeverStuck(t: Limits, p: Pos, targ: Pos)
    requires Valid(t) && Nested(t)
    requires InRange(targ) && Clear(t, targ.ha, targ.dec) && Clear(t, p.ha, p.dec)
    ensures CalcDirectionGoto(t, p, targ) != DIR_INVALID
    ensures CalcDirectionGoto(t, p, targ) == 0 <==> HaDone(p, targ) && DecDone(p, targ)
  {
    DirectionMeans(t, p, targ);
    if targ.dec <= p.dec {
      ClearFurtherSouth(t, p.ha, p.dec, targ.dec);
    } else {
      ClearFurtherSouth(t, targ.ha, targ.dec, p.dec);
    }
  }

  // ---------------------------------------------------------------- legs

  predicate Between(a: int, x: int, b: int) {
    a <= x <= b || b <= x <= a
  }

  /** q lies on the stretch from p to the target's coordinate, along the axis the planner chose. */
  predicate OnLeg(t: Limits, p: Pos, targ: Pos, q: Pos)
    requires Valid(t)
  {
    var dir := CalcDirectionGoto(t, p, targ);
    dir != DIR_INVALID &&
    if dir & DIR_DEC != 0 then q.ha == p.ha && Between(p.dec, q.dec, targ.dec)
    else if dir & DIR_HA != 0 then q.dec == p.dec && Between(p.ha, q.ha, targ.ha)
    else q == p
  }

  ghost predicate LegClear(t: Limits, p: Pos, targ: Pos)
    requires Valid(t)
  {
    forall q :: OnLeg(t, p, targ, q) ==> Clear(t, q.ha, q.dec)
  }

  /** The leg that finishes the last open axis ends a little off the target on the other one. */
  predicate LastLegEndsInLimits(t: Limits, p: Pos, targ: Pos)
    requires Valid(t)
  {
    (DecDone(p, targ) && !HaDone(p, targ) && !Clear(t, targ.ha, p.dec)) ||
    (HaDone(p, targ) && !DecDone(p, targ) && !Clear(t, p.ha, targ.dec))
  }

  /** A leg with both axes open is always clear; a leg with one open axis is clear exactly if its end is. */
  lemma LegClearExactly(t: Limits, p: Pos, targ: Pos)
    requires Valid(t) && Nested(t)
    requires InRange(targ) && Clear(t, targ.ha, targ.dec) && Clear(t, p.ha, p.dec)
    ensures LegClear(t, p, targ) <==> !LastLegEndsInLimits(t, p, targ)
  {
    PlannerNeverStuck(t, p, targ);
    DirectionMeans(t, p, targ);
    if LastLegEndsInLimits(t, p, targ) {
      var end := if DecDone(p, targ) then Pos(targ.ha, p.dec) else Pos(p.ha, targ.dec);
      assert OnLeg(t, p, targ, end);
    } else {
      forall q | OnLeg(t, p, targ, q) ensures Clear(t, q.ha, q.dec) {
        OnClearLeg(t, p, targ, q);
      }
    }
  }

  lemma OnClearLeg(t: Limits, p: Pos, targ: Pos, q: Pos)
    requires Valid(t) && Nested(t) && InRange(targ) && Clear(t, p.ha, p.dec)
    requires OnLeg(t, p, targ, q) && !LastLegEndsInLimits(t, p, targ)
    ensures Clear(t, q.ha, q.dec)
  {
    DirectionMeans(t, p, targ);
    var dir := CalcDirectionGoto(t, p, targ);
    if dir & DIR_DEC != 0 {
      ClearFurtherSouth(t, p.ha, if targ.dec <= p.dec then p.dec else targ.dec, q.dec);
    } else if dir & DIR_HA != 0 {
      ClearBetween(t, if p.ha <= targ.ha then p.ha else targ.ha,
                   if p.ha <= targ.ha then targ.ha else p.ha, q.ha, p.dec);
    }
  }

  /** A clear position and a clear target whose only leg runs through the western limit. */
  lemma ALegMayCrossTheLimit()
    ensures var t := Limits(STEPS_N_LIM - 3, [0, 10, 20], [1000, 1000, 1000]);
            var p, targ := Pos(100, STEPS_N_LIM - 1), Pos(5, STEPS_N_LIM - 3);
            && Valid(t) && Nested(t) && InRange(targ)
            && Clear(t, p.ha, p.dec) && Clear(t, targ.ha, targ.dec)
            && CalcDirectionGoto(t, p, targ) == DIR_WEST
            && OnLeg(t, p, targ, Pos(19, p.dec)) && !Clear(t, 19, p.dec)
  {
  }

  // ---------------------------------------------------------------- targets

  predicate NothingClearBeyond(t: Limits, ha: int, dec: int)
    requires Valid(t)
  {
    dec >= t.minDec &&
    (dec >= STEPS_N_LIM ||
     t.east[dec - t.minDec] < t.west[dec - t.minDec] ||
     (ha - TOLERANCE_HA <= t.west[dec - t.minDec] && t.east[dec - t.minDec] <= ha + TOLERANCE_HA))
  }

  /** The target can be approached from anywhere: it is clear by the hour angle tolerance at its own declination,
      and at the declinations from which the last leg may start its hour angle is clear or cannot be asked for. */
  predicate TargetSafe(t: Limits, targ: Pos)
    requires Valid(t)
  {
    && Clear(t, targ.ha - TOLERANCE_HA, targ.dec) && Clear(t, targ.ha + TOLERANCE_HA, targ.dec)
    && (Clear(t, targ.ha, targ.dec + 1) || NothingClearBeyond(t, targ.ha, targ.dec + 1))
    && (Clear(t, targ.ha, targ.dec + 2) || NothingClearBeyond(t, targ.ha, targ.dec + 2))
  }

  lemma NothingClearBeyondMeans(t: Limits, ha: int, dec: int)
    requires Valid(t) && !Clear(t, ha, dec)
    ensures NothingClearBeyond(t, ha, dec) <==> forall h :: Clear(t, h, dec) ==> Abs(ha - h) <= TOLERANCE_HA
  {
    ClearMeans(t, ha, dec);
    forall h ensures Clear(t, h, dec) && NothingClearBeyond(t, ha, dec) ==> Abs(ha - h) <= TOLERANCE_HA {
      ClearMeans(t, h, dec);
    }
    if !NothingClearBeyond(t, ha, dec) {
      var w, e := t.west[dec - t.minDec], t.east[dec - t.minDec];
      ClearMeans(t, w, dec);
      ClearMeans(t, e, dec);
      assert Clear(t, w, dec) && Clear(t, e, dec);
    }
  }

  /** Exactly the safe targets are approached without touching a soft limit from every clear position. */
  lemma TargetSafeExactly(t: Limits, targ: Pos)
    requires Valid(t) && Nested(t) && InRange(targ) && Clear(t, targ.ha, targ.dec)
    ensures TargetSafe(t, targ) <==> forall p: Pos :: Clear(t, p.ha, p.dec) ==> LegClear(t, p, targ)
  {
    if TargetSafe(t, targ) {
      forall p: Pos | Clear(t, p.ha, p.dec) ensures LegClear(t, p, targ) {
        SafeTargetLeg(t, p, targ);
      }
    } else {
      var p := UnsafeTargetWitness(t, targ);
      assert Clear(t, p.ha, p.dec);
    }
  }

  lemma SafeTargetLeg(t: Limits, p: Pos, targ: Pos)
    requires Valid(t) && Nested(t) && InRange(targ) && Clear(t, targ.ha, targ.dec)
    requires TargetSafe(t, targ) && Clear(t, p.ha, p.dec)
    ensures LegClear(t, p, targ)
  {
    LegClearExactly(t, p, targ);
    if DecDone(p, targ) && !HaDone(p, targ) {
      if p.dec <= targ.dec {
        ClearFurtherSouth(t, targ.ha, targ.dec, p.dec);
      } else if !Clear(t, targ.ha, p.dec) {
        NothingClearBeyondMeans(t, targ.ha, p.dec);
      }
    } else if HaDone(p, targ) && !DecDone(p, targ) {
      ClearBetween(t, targ.ha - TOLERANCE_HA, targ.ha + TOLERANCE_HA, p.ha, targ.dec);
    }
  }

  lemma UnsafeTargetWitness(t: Limits, targ: Pos) returns (p: Pos)
    requires Valid(t) && Nested(t) && InRange(targ) && Clear(t, targ.ha, targ.dec) && !TargetSafe(t, targ)
    ensures Clear(t, p.ha, p.dec) && !LegClear(t, p, targ)
  {
    if !(Clear(t, targ.ha - TOLERANCE_HA, targ.dec) && Clear(t, targ.ha + TOLERANCE_HA, targ.dec)) {
      var far := if targ.dec - 3 < t.minDec - 1 then targ.dec - 3 else t.minDec - 1;
      p := Pos(if Clear(t, targ.ha - TOLERANCE_HA, targ.dec) then targ.ha + TOLERANCE_HA else targ.ha - TOLERANCE_HA,
               far);
    } else {
      var dec := if Clear(t, targ.ha, targ.dec + 1) || NothingClearBeyond(t, targ.ha, targ.dec + 1)
                 then targ.dec + 2 else targ.dec + 1;
      NothingClearBeyondMeans(t, targ.ha, dec);
      var h :| Clear(t, h, dec) && Abs(targ.ha - h) > TOLERANCE_HA;
      p := Pos(h, dec);
    }
    LegClearExactly(t, p, targ);
  }

  // ---------------------------------------------------------------- targets, from positions in range

  function West(t: Limits, dec: int): int
    requires Valid(t) && t.minDec <= dec < STEPS_N_LIM
  {
    if t.west[dec - t.minDec] < 0 then 0 else t.west[dec - t.minDec]
  }

  function East(t: Limits, dec: int): int
    requires Valid(t) && t.minDec <= dec < STEPS_N_LIM
  {
    if t.east[dec - t.minDec] > STEPS_E_LIM then STEPS_E_LIM else t.east[dec - t.minDec]
  }

  /** As NothingClearBeyond, for hour angles in range. */
  predicate NothingInRangeBeyond(t: Limits, ha: int, dec: int)
    requires Valid(t)
  {
    dec >= t.minDec &&
    (dec >= STEPS_N_LIM || East(t, dec) < West(t, dec) ||
     (ha - TOLERANCE_HA <= West(t, dec) && East(t, dec) <= ha + TOLERANCE_HA))
  }

  /** At the target's declination every hour angle by the tolerance that can be reached from the south is clear. */
  predicate SidesClear(t: Limits, targ: Pos)
    requires Valid(t)
  {
    targ.dec > TOLERANCE_DEC ==>
      forall h :: targ.ha - TOLERANCE_HA <= h <= targ.ha + TOLERANCE_HA && 0 <= h <= STEPS_E_LIM && Clear(t, h, 0) ==>
        Clear(t, h, targ.dec)
  }

  predicate TargetSafeInRange(t: Limits, targ: Pos)
    requires Valid(t)
  {
    && SidesClear(t, targ)
    && (Clear(t, targ.ha, targ.dec + 1) || NothingInRangeBeyond(t, targ.ha, targ.dec + 1))
    && (Clear(t, targ.ha, targ.dec + 2) || NothingInRangeBeyond(t, targ.ha, targ.dec + 2))
  }

  lemma NothingInRangeBeyondMeans(t: Limits, ha: int, dec: int)
    requires Valid(t) && !Clear(t, ha, dec)
    ensures NothingInRangeBeyond(t, ha, dec) <==>
              forall h :: 0 <= h <= STEPS_E_LIM && Clear(t, h, dec) ==> Abs(ha - h) <= TOLERANCE_HA
  {
    ClearMeans(t, ha, dec);
    forall h | 0 <= h <= STEPS_E_LIM && Clear(t, h, dec) && NothingInRangeBeyond(t, ha, dec)
      ensures Abs(ha - h) <= TOLERANCE_HA
    {
      ClearMeans(t, h, dec);
    }
    if !NothingInRangeBeyond(t, ha, dec) {
      var w, e := West(t, dec), East(t, dec);
      ClearMeans(t, w, dec);
      ClearMeans(t, e, dec);
      assert 0 <= w <= e <= STEPS_E_LIM && Clear(t, w, dec) && Clear(t, e, dec);
    }
  }

  /** Exactly these targets are approached without touching a soft limit from every clear position in range. */
  lemma TargetSafeInRangeExactly(t: Limits, targ: Pos)
    requires Valid(t) && Nested(t) && InRange(targ) && Clear(t, targ.ha, targ.dec)
    ensures TargetSafeInRange(t, targ) <==>
              forall p: Pos :: InRange(p) && Clear(t, p.ha, p.dec) ==> LegClear(t, p, targ)
  {
    hide LegClear, TargetSafeInRange, Clear;
    if TargetSafeInRange(t, targ) {
      forall p: Pos | InRange(p) && Clear(t, p.ha, p.dec) ensures LegClear(t, p, targ) {
        SafeTargetLegInRange(t, p, targ);
      }
    } else {
      var p := UnsafeTargetInRange(t, targ);
      assert InRange(p) && Clear(t, p.ha, p.dec);
    }
  }

  lemma SafeTargetLegInRange(t: Limits, p: Pos, targ: Pos)
    requires Valid(t) && Nested(t) && InRange(targ) && Clear(t, targ.ha, targ.dec)
    requires TargetSafeInRange(t, targ) && InRange(p) && Clear(t, p.ha, p.dec)
    ensures LegClear(t, p, targ)
  {
    hide LegClear, Clear, NothingInRangeBeyond;
    LegClearExactly(t, p, targ);
    if DecDone(p, targ) && !HaDone(p, targ) {
      if p.dec <= targ.dec {
        ClearFurtherSouth(t, targ.ha, targ.dec, p.dec);
      } else if !Clear(t, targ.ha, p.dec) {
        NothingInRangeBeyondMeans(t, targ.ha, p.dec);
      }
    } else if HaDone(p, targ) && !DecDone(p, targ) {
      ClearFurtherSouth(t, p.ha, p.dec, 0);
      if p.dec > targ.dec {
        ClearFurtherSouth(t, p.ha, p.dec, targ.dec);
      }
    }
  }

  lemma UnsafeTargetInRange(t: Limits, targ: Pos) returns (p: Pos)
    requires Valid(t) && Nested(t) && InRange(targ) && Clear(t, targ.ha, targ.dec) && !TargetSafeInRange(t, targ)
    ensures InRange(p) && Clear(t, p.ha, p.dec) && !LegClear(t, p, targ)
  {
    hide LegClear, NothingInRangeBeyond, Clear, CalcDirectionGoto;
    if !SidesClear(t, targ) {
      var h :| targ.ha - TOLERANCE_HA <= h <= targ.ha + TOLERANCE_HA && 0 <= h <= STEPS_E_LIM && Clear(t, h, 0) &&
        !Clear(t, h, targ.dec);
      p := Pos(h, 0);
    } else {
      var dec := if Clear(t, targ.ha, targ.dec + 1) || NothingInRangeBeyond(t, targ.ha, targ.dec + 1)
                 then targ.dec + 2 else targ.dec + 1;
      NothingInRangeBeyondMeans(t, targ.ha, dec);
      var h :| 0 <= h <= STEPS_E_LIM && Clear(t, h, dec) && Abs(targ.ha - h) > TOLERANCE_HA;
      NoneClearBeyondTheEnd(t, h, dec);
      p := Pos(h, dec);
    }
    LegClearExactly(t, p, targ);
  }

  lemma NoneClearBeyondTheEnd(t: Limits, ha: int, dec: int)
    requires Valid(t) && Clear(t, ha, dec)
    ensures dec < STEPS_N_LIM
  {
    ClearMeans(t, ha, dec);
  }

  // ---------------------------------------------------------------- whole gotos

  function Dist(p: Pos, targ: Pos): nat {
    Abs(targ.ha - p.ha) + Abs(targ.dec - p.dec)
  }

  /** Every movement along a leg is progress. */
  lemma LegsApproach(t: Limits, p: Pos, targ: Pos, q: Pos)
    requires Valid(t) && OnLeg(t, p, targ, q)
    ensures Dist(q, targ) <= Dist(p, targ)
    ensures q != p ==> Dist(q, targ) < Dist(p, targ)
  {
  }

  // ---------------------------------------------------------------- courses

  /** q is p or lies ahead of it in a direction, not beyond the target's coordinate. */
  predicate OnCourse(p: Pos, dir: bv8, targ: Pos, q: Pos) {
    || q == p
    || (dir == DIR_NORTH && q.ha == p.ha && p.dec <= q.dec <= targ.dec)
    || (dir == DIR_SOUTH && q.ha == p.ha && targ.dec <= q.dec <= p.dec)
    || (dir == DIR_WEST && q.dec == p.dec && targ.ha <= q.ha <= p.ha)
    || (dir == DIR_EAST && q.dec == p.dec && p.ha <= q.ha <= targ.ha)
  }

  /** The position and all that still lies ahead is clear. */
  ghost predicate CourseClear(t: Limits, p: Pos, dir: bv8, targ: Pos)
    requires Valid(t)
  {
    forall q :: OnCourse(p, dir, targ, q) ==> Clear(t, q.ha, q.dec)
  }

  /** The course in a planned direction is part of the leg. */
  lemma CourseIsLeg(t: Limits, p: Pos, targ: Pos, q: Pos)
    requires Valid(t) && CalcDirectionGoto(t, p, targ) != DIR_INVALID
    requires OnCourse(p, CalcDirectionGoto(t, p, targ), targ, q)
    ensures OnLeg(t, p, targ, q)
  {
    hide Clear;
  }

  lemma PlannedCourseIsClear(t: Limits, p: Pos, targ: Pos)
    requires Valid(t) && Nested(t) && InRange(targ) && Clear(t, targ.ha, targ.dec)
    requires TargetSafe(t, targ) && Clear(t, p.ha, p.dec)
    ensures CalcDirectionGoto(t, p, targ) != DIR_INVALID
    ensures CourseClear(t, p, CalcDirectionGoto(t, p, targ), targ)
  {
    hide OnCourse, OnLeg, CalcDirectionGoto, TargetSafe, Clear;
    PlannerNeverStuck(t, p, targ);
    SafeTargetLeg(t, p, targ);
    forall q | OnCourse(p, CalcDirectionGoto(t, p, targ), targ, q) ensures Clear(t, q.ha, q.dec) {
      CourseIsLeg(t, p, targ, q);
    }
  }

  /** A clear course stays clear while it is held. */
  lemma HeldCourseIsClear(t: Limits, p: Pos, dir: bv8, targ: Pos, q: Pos)
    requires Valid(t) && CourseClear(t, p, dir, targ) && OnCourse(p, dir, targ, q)
    ensures CourseClear(t, q, dir, targ) && Clear(t, q.ha, q.dec)
    ensures Dist(q, targ) <= Dist(p, targ) && (q != p ==> Dist(q, targ) < Dist(p, targ))
  {
    hide Clear;
    forall r | OnCourse(q, dir, targ, r) ensures Clear(t, r.ha, r.dec) {
      assert OnCourse(p, dir, targ, r);
    }
  }

  // ---------------------------------------------------------------- a target that moves in hour angle

  /** More than the tolerance of the row is clear. */
  predicate RowIsWide(t: Limits, dec: int)
    requires Valid(t)
  {
    dec < t.minDec || (dec < STEPS_N_LIM && t.east[dec - t.minDec] - t.west[dec - t.minDec] > TOLERANCE_HA)
  }

  /** A course in hour angle runs in a row that is clear at the hour angle of every safe target of its declination. */
  predicate Extends(t: Limits, p: Pos, dir: bv8, targDec: int)
    requires Valid(t)
  {
    dir == DIR_WEST || dir == DIR_EAST ==> p.dec <= targDec || (p.dec <= targDec + TOLERANCE_DEC && RowIsWide(t, p.dec))
  }

  lemma TwoClearApart(t: Limits, a: int, b: int, dec: int)
    requires Valid(t) && Clear(t, a, dec) && Clear(t, b, dec) && Abs(a - b) > TOLERANCE_HA
    ensures RowIsWide(t, dec)
  {
    ClearMeans(t, a, dec);
    ClearMeans(t, b, dec);
  }

  lemma WideRowReaches(t: Limits, targ: Pos, dec: int)
    requires Valid(t) && Nested(t) && Clear(t, targ.ha, targ.dec) && TargetSafe(t, targ)
    requires dec <= targ.dec || (dec <= targ.dec + TOLERANCE_DEC && RowIsWide(t, dec))
    ensures Clear(t, targ.ha, dec)
  {
    if dec <= targ.dec {
      ClearFurtherSouth(t, targ.ha, targ.dec, dec);
    } else {
      ClearMeans(t, targ.ha, dec);
      hide Clear;
      assert dec == targ.dec + 1 || dec == targ.dec + 2;
    }
  }

  lemma PlannedCourseExtends(t: Limits, p: Pos, targ: Pos)
    requires Valid(t) && Nested(t) && InRange(targ) && Clear(t, targ.ha, targ.dec)
    requires TargetSafe(t, targ) && Clear(t, p.ha, p.dec)
    ensures Extends(t, p, CalcDirectionGoto(t, p, targ), targ.dec)
  {
    hide CalcDirectionGoto, TargetSafe, Clear, OnLeg;
    var dir := CalcDirectionGoto(t, p, targ);
    DirectionMeans(t, p, targ);
    PlannerNeverStuck(t, p, targ);
    if (dir == DIR_WEST || dir == DIR_EAST) && p.dec > targ.dec {
      ClearFurtherSouth(t, p.ha, p.dec, targ.dec);
      assert DecDone(p, targ) && !HaDone(p, targ);
      SafeTargetLeg(t, p, targ);
      LegClearExactly(t, p, targ);
      TwoClearApart(t, p.ha, targ.ha, p.dec);
    }
  }

  /** A clear course stays clear when the target moves in hour angle to another safe one, on either side. */
  lemma MovedCourseIsClear(t: Limits, p: Pos, dir: bv8, targ: Pos, moved: Pos)
    requires Valid(t) && Nested(t) && CourseClear(t, p, dir, targ) && Extends(t, p, dir, targ.dec)
    requires moved.dec == targ.dec && Clear(t, moved.ha, moved.dec) && TargetSafe(t, moved)
    ensures CourseClear(t, p, dir, moved)
  {
    hide Clear, TargetSafe;
    assert OnCourse(p, dir, targ, p);
    if dir == DIR_WEST || dir == DIR_EAST {
      WideRowReaches(t, moved, p.dec);
      forall q | OnCourse(p, dir, moved, q) ensures Clear(t, q.ha, q.dec) {
        ClearBetween(t, if p.ha <= moved.ha then p.ha else moved.ha, if p.ha <= moved.ha then moved.ha else p.ha,
                     if Between(p.ha, q.ha, moved.ha) then q.ha else p.ha, p.dec);
      }
    } else {
      forall q | OnCourse(p, dir, moved, q) ensures Clear(t, q.ha, q.dec) {
        assert OnCourse(p, dir, targ, q);
      }
    }
  }

  // ---------------------------------------------------------------- whole gotos to a target at rest

  /** A goto as the driver makes it. dirs[i] is the direction in which path[i] is left: at first the planned one,
      and then the one held so far or the one planned anew. */
  ghost predicate Follows(t: Limits, path: seq<Pos>, dirs: seq<bv8>, targ: Pos)
    requires Valid(t)
  {
    && |path| == |dirs| > 0 && dirs[0] == CalcDirectionGoto(t, path[0], targ)
    && forall i :: 1 <= i < |path| ==>
         OnCourse(path[i - 1], dirs[i - 1], targ, path[i]) &&
         dirs[i] in {dirs[i - 1], CalcDirectionGoto(t, path[i], targ)}
  }

  /** On the way to a safe target, whether the direction is changed at once or held on to, every position passed
      and all that lies ahead is clear, the planner always has an answer, and it says "arrived" exactly within
      the tolerances. */
  lemma {:induction false} GotoStaysClear(t: Limits, path: seq<Pos>, dirs: seq<bv8>, targ: Pos, i: nat)
    requires Valid(t) && Nested(t)
    requires InRange(targ) && Clear(t, targ.ha, targ.dec) && TargetSafe(t, targ)
    requires Follows(t, path, dirs, targ) && Clear(t, path[0].ha, path[0].dec) && i < |path|
    ensures Clear(t, path[i].ha, path[i].dec) && CourseClear(t, path[i], dirs[i], targ)
    ensures CalcDirectionGoto(t, path[i], targ) != DIR_INVALID
    ensures CalcDirectionGoto(t, path[i], targ) == 0 <==> HaDone(path[i], targ) && DecDone(path[i], targ)
    ensures Dist(path[i], targ) <= Dist(path[0], targ)
    decreases i
  {
    hide OnCourse, CalcDirectionGoto, TargetSafe, Clear, Dist, HaDone, DecDone;
    if i > 0 {
      GotoStaysClear(t, path, dirs, targ, i - 1);
      assert OnCourse(path[i - 1], dirs[i - 1], targ, path[i]);
      HeldCourseIsClear(t, path[i - 1], dirs[i - 1], targ, path[i]);
    }
    PlannedCourseIsClear(t, path[i], targ);
    PlannerNeverStuck(t, path[i], targ);
  }
}
