/** Gotos over whole runs of the driver: a goto to a safe target, at rest or moving with the sky, stays clear of
    the soft limits to its end. */
module MotorGotos {
  import opened MotorDefs
  import opened SoftLimits
  import opened MotorMachine
  import opened MotorInvariants
  import opened MotorRuns
  import opened MotorSky

  /** The position in the driver's coordinates, with the steps that are counted but not yet credited. */
  function Where(site: Site, w: World): Pos
    requires WF(w)
  {
    var dir, steps := DriverDir(site, w), w.last - w.hw.counter;
    Pos(w.ha + CreditHa(dir, steps), w.dec + CreditDec(dir, steps))
  }

  // ---------------------------------------------------------------- the direction rule

  /** Fast, a goto keeps its direction whatever the plan says; slow, it takes the planned one, or ends at the target. */
  lemma DirectionRule(site: Site, w: World, now: int)
    requires ValidSite(site) && WF(w) && w.stat.goto
    ensures var u := FollowGoto(site, w, now);
            var plan := CalcDirectionGoto(site.limits, Pos(w.ha, w.dec), GotoTarget(site, w, now));
            && (w.params.g.rateCur < RATE_MIN ==> u.stat.goto && u.params.g.dirCur == w.params.g.dirCur)
            && (w.params.g.rateCur >= RATE_MIN && plan != 0 ==> u.stat.goto && u.params.g.dirCur == plan)
            && (w.params.g.rateCur >= RATE_MIN && plan == 0 ==> !u.stat.goto)
  {
    hide CalcDirectionGoto, CalcRampRate, IsNearTarget, Hits, FinishGoto;
    var plan := CalcDirectionGoto(site.limits, Pos(w.ha, w.dec), GotoTarget(site, w, now));
    if w.params.g.rateCur >= RATE_MIN && plan == 0 {
      FinishEndsGoto(site, w);
    }
  }

  lemma FinishEndsGoto(site: Site, w: World)
    requires WF(w) && w.stat.goto
    ensures !FinishGoto(site, w).stat.goto
  {
    hide CreditHa, CreditDec, SendDirection;
  }

  // ---------------------------------------------------------------- a held course

  predicate Safe(site: Site, targ: Pos)
    requires ValidSite(site)
  {
    InRange(targ) && Clear(site.limits, targ.ha, targ.dec) && TargetSafe(site.limits, targ)
  }

  /** A goto is under way: where it is, where it was last looked at, and all that lies ahead of it up to the target,
      wherever in hour angle a safe target may move to, is clear. */
  ghost predicate OnItsWay(site: Site, w: World, targ: Pos)
    requires ValidSite(site) && WF(w)
  {
    && w.stat.goto && w.params.g.targDec == targ.dec
    && Clear(site.limits, w.ha, w.dec)
    && CourseClear(site.limits, Where(site, w), w.params.g.dirCur, targ)
    && Extends(site.limits, Where(site, w), w.params.g.dirCur, targ.dec)
  }

  /** A tick that looks at the target. */
  predicate Aims(w: World, e: Event)
    requires WF(w) && w.stat.goto
  {
    e.TickEvent? && !w.params.g.cancelled
  }

  /** The target as the driver sees it from this event on: while tracking, it moves with the sky from tick to tick. */
  function NextTarget(site: Site, w: World, e: Event, targ: Pos): Pos
    requires ValidSite(site) && WF(w) && w.stat.goto
  {
    if Aims(w, e) then GotoTarget(site, w, e.now) else targ
  }

  /** What the theorem leaves out: setting coordinates or a zero point, a tick that sees an unsafe target, and axes
      that run beyond the coordinate of the target before the driver looks again. */
  predicate Undisturbed(site: Site, w: World, e: Event, targ: Pos)
    requires ValidSite(site) && Inv(w) && w.stat.goto
  {
    match e
    case SetCoordEvent(_, _) => false
    case TickEvent(_, _) => !RezeroesHa(w, e) && !RezeroesDec(w, e) && Safe(site, NextTarget(site, w, e, targ))
    case StepsEvent(k) => OnCourse(Where(site, w), w.params.g.dirCur, targ, Where(site, w.(hw := MoveSteps(w.hw, k))))
    case _ => true
  }

  /** Same position, same direction, still clear. */
  lemma SameCourse(site: Site, w: World, u: World, targ: Pos)
    requires ValidSite(site) && WF(w) && WF(u) && OnItsWay(site, w, targ)
    requires u.stat.goto && u.params.g.dirCur == w.params.g.dirCur && u.params.g.targDec == targ.dec
    requires Where(site, u) == Where(site, w) && (Pos(u.ha, u.dec) in {Pos(w.ha, w.dec), Where(site, w)})
    ensures OnItsWay(site, u, targ)
  {
    assert OnCourse(Where(site, w), w.params.g.dirCur, targ, Where(site, w));
    hide Clear, OnCourse, Where, Extends;
  }

  /** The target has moved in hour angle, to either side of the telescope. */
  lemma TargetMoves(site: Site, w: World, targ: Pos, moved: Pos)
    requires ValidSite(site) && Nested(site.limits) && WF(w) && OnItsWay(site, w, targ)
    requires moved.dec == targ.dec && Safe(site, moved)
    ensures OnItsWay(site, w, moved)
  {
    MovedCourseIsClear(site.limits, Where(site, w), w.params.g.dirCur, targ, moved);
    hide Clear, TargetSafe, CourseClear, Extends, Where;
  }

  // ---------------------------------------------------------------- ticks

  /** Looking around credits the steps and finds no soft limit. */
  lemma LookAroundHolds(site: Site, w: World, reading: bv8, targ: Pos)
    requires ValidSite(site) && Inv(w) && OnItsWay(site, w, targ)
    requires !ZeroesHa(w, reading) && !ZeroesDec(w, reading)
    ensures var u := LookAround(site, w, reading);
            && Inv(u) && OnItsWay(site, u, targ) && Pos(u.ha, u.dec) == Where(site, u) == Where(site, w)
            && u.altLims == 0 && u.params == w.params && u.hw == w.hw && u.stat.tracking == w.stat.tracking
  {
    LookAroundKeeps(site, w, reading);
    var u := LookAround(site, w, reading);
    LookAroundCredits(site, w, reading);
    hide LookAround, Clear, CourseClear, Extends, Inv, Where;
    SameCourse(site, w, u, targ);
  }

  lemma LookAroundCredits(site: Site, w: World, reading: bv8)
    requires ValidSite(site) && Inv(w) && w.stat.goto && Clear(site.limits, w.ha, w.dec)
    requires !ZeroesHa(w, reading) && !ZeroesDec(w, reading)
    ensures var u := LookAround(site, w, reading);
            && WF(u) && Pos(u.ha, u.dec) == Where(site, u) == Where(site, w)
            && u.altLims == 0 && u.hw == w.hw && u.params == w.params
            && u.stat.goto && u.stat.tracking == w.stat.tracking
  {
    hide ZeroesHa, ZeroesDec;
  }

  /** A new plan at a clear position leads on a clear course. */
  lemma RedirectHolds(site: Site, w: World, targ: Pos)
    requires ValidSite(site) && Nested(site.limits) && Safe(site, targ) && Inv(w) && OnItsWay(site, w, targ)
    requires Pos(w.ha, w.dec) == Where(site, w)
    ensures OnItsWay(site, RedirectGoto(site, w, CalcDirectionGoto(site.limits, Pos(w.ha, w.dec), targ)), targ)
  {
    var dir := CalcDirectionGoto(site.limits, Pos(w.ha, w.dec), targ);
    PlannedCourseIsClear(site.limits, Pos(w.ha, w.dec), targ);
    PlannedCourseExtends(site.limits, Pos(w.ha, w.dec), targ);
    RedirectStays(site, w, dir);
    hide CalcDirectionGoto, RedirectGoto, CourseClear, Extends, Clear, Where;
  }

  lemma RedirectStays(site: Site, w: World, dir: bv8)
    requires Inv(w) && w.stat.goto && Pos(w.ha, w.dec) == Where(site, w)
    ensures var u := RedirectGoto(site, w, dir);
            && WF(u) && u.stat == w.stat && Pos(u.ha, u.dec) == Where(site, u) == Pos(w.ha, w.dec)
            && u.params.Goto? && u.params.g == w.params.g.(dirCur := u.params.g.dirCur)
            && (u.params.g.dirCur == dir || u == w)
  {
    hide Frozen;
  }

  lemma RampHolds(site: Site, w: World, targ: Pos)
    requires ValidSite(site) && WF(w) && OnItsWay(site, w, targ)
    ensures OnItsWay(site, RampGoto(w, targ), targ)
  {
    RampStays(site, w, targ);
    hide RampGoto, Clear, CourseClear, Extends, Where;
  }

  lemma RampStays(site: Site, w: World, targ: Pos)
    requires WF(w) && w.stat.goto
    ensures var u := RampGoto(w, targ);
            && WF(u) && u.stat == w.stat && u.ha == w.ha && u.dec == w.dec && Where(site, u) == Where(site, w)
            && u.params.Goto? && u.params.g == w.params.g.(rateCur := u.params.g.rateCur)
  {
    hide CalcRampRate, IsNearTarget;
  }

  lemma FollowHolds(site: Site, w: World, now: int)
    requires ValidSite(site) && Nested(site.limits) && Inv(w) && w.stat.goto
    requires Safe(site, GotoTarget(site, w, now)) && OnItsWay(site, w, GotoTarget(site, w, now))
    requires Pos(w.ha, w.dec) == Where(site, w)
    ensures var u := FollowGoto(site, w, now);
            WF(u) && (u.stat.goto ==> OnItsWay(site, u, GotoTarget(site, w, now)))
  {
    var targ := GotoTarget(site, w, now);
    assert WF(w);
    hide Clear, CourseClear, Extends, Where, CalcDirectionGoto, RedirectGoto, RampGoto, FinishGoto, Inv, GotoTarget;
    var dir := CalcDirectionGoto(site.limits, Pos(w.ha, w.dec), targ);
    RedirectHolds(site, w, targ);
    RampHolds(site, RedirectGoto(site, w, dir), targ);
    FinishEndsGoto(site, w);
  }

  lemma EaseHolds(site: Site, w: World, targ: Pos)
    requires ValidSite(site) && WF(w) && OnItsWay(site, w, targ)
    ensures var u := EaseGoto(site, w);
            WF(u) && (u.stat.goto ==> OnItsWay(site, u, targ))
  {
    FinishEndsGoto(site, w);
    hide Clear, CourseClear, Extends, FinishGoto, CalcRampRate;
  }

  lemma CheckGotoHolds(site: Site, w: World, now: int, targ: Pos)
    requires ValidSite(site) && Nested(site.limits) && Inv(w) && OnItsWay(site, w, targ)
    requires !w.params.g.cancelled ==> GotoTarget(site, w, now) == targ && Safe(site, targ)
    requires Pos(w.ha, w.dec) == Where(site, w)
    ensures var u := CheckGoto(site, w, now);
            WF(u) && (u.stat.goto ==> OnItsWay(site, u, targ))
  {
    if !w.params.g.cancelled {
      FollowHolds(site, w, now);
    }
    EaseHolds(site, w, targ);
    hide FollowGoto, EaseGoto, OnItsWay, Inv, HitsEither, StopMove, GotoTarget, Where;
  }

  lemma TickHolds(site: Site, w: World, reading: bv8, now: int, targ: Pos)
    requires ValidSite(site) && Nested(site.limits) && Inv(w) && OnItsWay(site, w, targ)
    requires !ZeroesHa(w, reading) && !ZeroesDec(w, reading)
    requires Safe(site, NextTarget(site, w, TickEvent(reading, now), targ))
    ensures var u := Tick(site, w, reading, now);
            WF(u) && (u.stat.goto ==> OnItsWay(site, u, NextTarget(site, w, TickEvent(reading, now), targ)))
  {
    var u, moved := LookAround(site, w, reading), NextTarget(site, w, TickEvent(reading, now), targ);
    LookAroundHolds(site, w, reading, targ);
    assert moved.dec == targ.dec;
    TargetMoves(site, u, targ, moved);
    assert !u.params.g.cancelled ==> GotoTarget(site, u, now) == moved;
    CheckGotoHolds(site, u, now, moved);
    hide LookAround, CheckGoto, Clear, CourseClear, Extends, Where, Inv, Nested, GotoTarget;
  }

  /** A tick ends such a goto for one of three reasons only: a hard limit in its direction, its cancellation, or its
      arrival: it is where it was ordered, while tracking as the sky has taken that place along. */
  lemma TickEndsGotoOnlyFor(site: Site, w: World, reading: bv8, now: int, targ: Pos)
    requires ValidSite(site) && Nested(site.limits) && Inv(w) && OnItsWay(site, w, targ)
    requires !ZeroesHa(w, reading) && !ZeroesDec(w, reading)
    requires Safe(site, NextTarget(site, w, TickEvent(reading, now), targ))
    ensures !Tick(site, w, reading, now).stat.goto ==>
              || Hits(reading, w.params.g.dirCur) || w.params.g.cancelled
              || IsWhereOrdered(site.hz, w.stat.tracking, Ordered(w.params.g), w.params.g.startTime, now,
                                Where(site, w))
  {
    hide IsWhereOrdered;
    TickEndsNearTarget(site, w, reading, now, targ);
    var p, target := Where(site, w), GotoTarget(site, w, now);
    if HaDone(p, target) && DecDone(p, target) {
      DoneIsWhereOrdered(site, w, now, p);
    }
    hide Tick, OnItsWay, Safe, Where, GotoTarget, HaDone, DecDone, Nested, Hits;
  }

  lemma TickEndsNearTarget(site: Site, w: World, reading: bv8, now: int, targ: Pos)
    requires ValidSite(site) && Nested(site.limits) && Inv(w) && OnItsWay(site, w, targ)
    requires !ZeroesHa(w, reading) && !ZeroesDec(w, reading)
    requires Safe(site, NextTarget(site, w, TickEvent(reading, now), targ))
    ensures !Tick(site, w, reading, now).stat.goto ==>
              || Hits(reading, w.params.g.dirCur) || w.params.g.cancelled
              || (HaDone(Where(site, w), GotoTarget(site, w, now)) && DecDone(Where(site, w), GotoTarget(site, w, now)))
  {
    var u := LookAround(site, w, reading);
    LookAroundHolds(site, w, reading, targ);
    assert u.hardLims == reading;
    if u.params.g.cancelled || Hits(reading, u.params.g.dirCur) {
    } else {
      NoSoftLimit(reading, u.params.g.dirCur);
      assert GotoTarget(site, u, now) == GotoTarget(site, w, now);
      DirectionRule(site, u, now);
      PlannerNeverStuck(site.limits, Where(site, w), GotoTarget(site, w, now));
      hide LookAround, FollowGoto, Clear, CourseClear, Extends, Where, Inv, CalcDirectionGoto, HaDone, DecDone;
      hide Hits, HitsEither, GotoTarget;
    }
  }

  lemma NoSoftLimit(reading: bv8, dir: bv8)
    ensures HitsEither(reading, 0, dir) == Hits(reading, dir)
  {
    assert reading | 0 == reading;
  }

  // ---------------------------------------------------------------- runs

  lemma StepsHold(site: Site, w: World, k: nat, targ: Pos)
    requires ValidSite(site) && Inv(w) && OnItsWay(site, w, targ) && Undisturbed(site, w, StepsEvent(k), targ)
    ensures OnItsWay(site, w.(hw := MoveSteps(w.hw, k)), targ)
  {
    var u := w.(hw := MoveSteps(w.hw, k));
    HeldCourseIsClear(site.limits, Where(site, w), w.params.g.dirCur, targ, Where(site, u));
    hide Clear, CourseClear, Where, MoveSteps, Inv, RowIsWide;
  }

  /** A command ends the goto, marks it cancelled, or changes flags beside it. */
  predicate Beside(w: World, u: World)
    requires WF(w) && w.stat.goto
  {
    WF(u) && (u.stat.goto ==>
      && u.ha == w.ha && u.dec == w.dec && u.last == w.last && u.hw == w.hw
      && u.params.g.dirCur == w.params.g.dirCur && u.params.g.targDec == w.params.g.targDec)
  }

  lemma EndingIsBeside(site: Site, w: World)
    requires WF(w) && w.stat.goto
    ensures Beside(w, EndGoto(site, w)) && Beside(w, Abort(site, w))
  {
    hide CreditHa, CreditDec, SendDirection;
  }

  lemma SwitchingIsBeside(site: Site, w: World, on: bool)
    requires WF(w) && w.stat.goto
    ensures Beside(w, ToggleAllStop(site, w, on)) && Beside(w, ToggleTracking(site, w, on))
  {
    hide StopMove, StartMove;
  }

  lemma HandsetIsBeside(site: Site, w: World, before: bv8, after: bv8, now: int)
    requires WF(w) && w.stat.goto
    ensures Beside(w, Handset(site, w, before, after, now))
  {
    hide ToggleAllStop, ToggleTracking, HandsetMove, TogglesStop, TogglesTracking, Hits;
    SwitchingIsBeside(site, w, !w.stat.allStop);
    SwitchingIsBeside(site, w, !w.stat.tracking);
  }

  lemma CommandIsBeside(site: Site, w: World, e: Event)
    requires ValidSite(site) && Inv(w) && w.stat.goto
    requires !e.TickEvent? && !e.StepsEvent? && !e.SetCoordEvent?
    ensures Beside(w, Effect(site, w, e))
  {
    hide Abort, EndGoto, ToggleAllStop, ToggleTracking, Handset, CalcDirectionGoto, CalcRate, DirMask, BeginCard;
    match e
    case HandsetEvent(o, n, now) => HandsetIsBeside(site, w, o, n, now);
    case AllStopEvent(on) => SwitchingIsBeside(site, w, on);
    case TrackingEvent(on) => SwitchingIsBeside(site, w, on);
    case _ => EndingIsBeside(site, w);
  }

  lemma CommandHolds(site: Site, w: World, e: Event, targ: Pos)
    requires ValidSite(site) && Inv(w) && OnItsWay(site, w, targ)
    requires !e.TickEvent? && !e.StepsEvent? && !e.SetCoordEvent?
    ensures var u := Effect(site, w, e);
            WF(u) && (u.stat.goto ==> OnItsWay(site, u, targ))
  {
    hide Effect, Clear, CourseClear, Extends;
    CommandIsBeside(site, w, e);
    if Effect(site, w, e).stat.goto {
      SameCourse(site, w, Effect(site, w, e), targ);
    }
  }

  lemma EventHolds(site: Site, w: World, e: Event, targ: Pos)
    requires ValidSite(site) && Nested(site.limits) && Inv(w) && OnItsWay(site, w, targ)
    requires Undisturbed(site, w, e, targ)
    ensures var u := Step(site, w, e); u.stat.goto ==> OnItsWay(site, u, NextTarget(site, w, e, targ))
  {
    if e.TickEvent? {
      TickHolds(site, w, e.reading, e.now, targ);
    } else if e.StepsEvent? {
      StepsHold(site, w, e.steps, targ);
    } else {
      CommandHolds(site, w, e, targ);
    }
    hide OnItsWay, Inv, Effect, Tick, Safe, GotoTarget, Where, MoveSteps, Nested;
  }

  ghost predicate UndisturbedRun(site: Site, w: World, es: seq<Event>, targ: Pos)
    requires ValidSite(site) && Inv(w)
    decreases |es|
  {
    w.stat.goto && es != [] ==>
      && Undisturbed(site, w, es[0], targ)
      && UndisturbedRun(site, Step(site, w, es[0]), es[1..], NextTarget(site, w, es[0], targ))
  }

  /** From now on, until the goto is over. */
  ghost predicate StaysOnItsWay(site: Site, w: World, es: seq<Event>, targ: Pos)
    requires ValidSite(site) && Inv(w)
    decreases |es|
  {
    w.stat.goto ==>
      && OnItsWay(site, w, targ)
      && (es != [] ==> StaysOnItsWay(site, Step(site, w, es[0]), es[1..], NextTarget(site, w, es[0], targ)))
  }

  /** In every run, at any rate, tracking or not, and whatever else is commanded, the goto stays clear of the soft
      limits until it is over. */
  lemma {:induction false} GotoRunStaysClear(site: Site, w: World, es: seq<Event>, targ: Pos)
    requires ValidSite(site) && Nested(site.limits) && Inv(w)
    requires w.stat.goto ==> OnItsWay(site, w, targ)
    requires UndisturbedRun(site, w, es, targ)
    ensures StaysOnItsWay(site, w, es, targ)
    decreases |es|
  {
    if w.stat.goto && es != [] {
      EventHolds(site, w, es[0], targ);
      hide OnItsWay, Undisturbed, Effect, Nested, NextTarget, Inv;
      GotoRunStaysClear(site, Step(site, w, es[0]), es[1..], NextTarget(site, w, es[0], targ));
    }
  }

  /** The steps not yet credited when the goto is commanded do not change its plan. */
  predicate PlanHolds(site: Site, w: World, targ: Pos)
    requires ValidSite(site) && WF(w)
  {
    && Clear(site.limits, Where(site, w).ha, Where(site, w).dec)
    && CalcDirectionGoto(site.limits, Where(site, w), targ) == CalcDirectionGoto(site.limits, Pos(w.ha, w.dec), targ)
  }

  /** A motor at rest has none. */
  lemma PlanHoldsAtRest(site: Site, w: World, cmd: GotoCmd)
    requires ValidSite(site) && WF(w) && !w.stat.tracking && GotoReply(site, w, cmd) == Ok
    ensures PlanHolds(site, w, Pos(cmd.targHa, cmd.targDec))
  {
    RefusedWhenNotClear(site.limits, Pos(w.ha, w.dec), Pos(cmd.targHa, cmd.targDec));
    assert Where(site, w) == Pos(w.ha, w.dec);
    hide CalcDirectionGoto, Clear, Where;
  }

  /** From the command on: every goto that the driver accepts to a safe target, tracking or not. */
  lemma AcceptedGotoStaysClear(site: Site, w: World, cmd: GotoCmd, now: int, es: seq<Event>)
    requires ValidSite(site) && Nested(site.limits) && Inv(w) && GotoReply(site, w, cmd) == Ok
    requires Safe(site, Pos(cmd.targHa, cmd.targDec))
    requires w.stat.tracking ==> PlanHolds(site, w, Pos(cmd.targHa, cmd.targDec))
    requires UndisturbedRun(site, Step(site, w, GotoEvent(cmd, now)), es, Pos(cmd.targHa, cmd.targDec))
    ensures Step(site, w, GotoEvent(cmd, now)).stat.goto
    ensures StaysOnItsWay(site, Step(site, w, GotoEvent(cmd, now)), es, Pos(cmd.targHa, cmd.targDec))
  {
    if !w.stat.tracking {
      PlanHoldsAtRest(site, w, cmd);
    }
    AcceptedGotoBegins(site, w, cmd, now);
    GotoRunStaysClear(site, Step(site, w, GotoEvent(cmd, now)), es, Pos(cmd.targHa, cmd.targDec));
  }

  lemma AcceptedGotoBegins(site: Site, w: World, cmd: GotoCmd, now: int)
    requires ValidSite(site) && Nested(site.limits) && Inv(w) && GotoReply(site, w, cmd) == Ok
    requires Safe(site, Pos(cmd.targHa, cmd.targDec)) && PlanHolds(site, w, Pos(cmd.targHa, cmd.targDec))
    ensures var u := StartGoto(site, w, cmd, now);
            WF(u) && OnItsWay(site, u, Pos(cmd.targHa, cmd.targDec))
  {
    var p, targ := Where(site, w), Pos(cmd.targHa, cmd.targDec);
    PlannedCourseIsClear(site.limits, p, targ);
    PlannedCourseExtends(site.limits, p, targ);
    AcceptedGotoStarts(site, w, cmd, now);
    hide CalcDirectionGoto, Clear, CourseClear, Extends, TargetSafe, Where, StartGoto, GotoReply;
  }

  lemma AcceptedGotoStarts(site: Site, w: World, cmd: GotoCmd, now: int)
    requires ValidSite(site) && WF(w) && GotoReply(site, w, cmd) == Ok
    ensures var u := StartGoto(site, w, cmd, now);
            && WF(u) && u.stat.goto && u.params.g.targDec == cmd.targDec
            && Pos(u.ha, u.dec) == Where(site, u) == Where(site, w)
            && u.params.g.dirCur
               == CalcDirectionGoto(site.limits, Pos(w.ha, w.dec), Pos(cmd.targHa, cmd.targDec))
  {
    hide CalcDirectionGoto, Clear, CalcRate, HitsEither, Hits;
    assert StartGoto(site, w, cmd, now).last == StartGoto(site, w, cmd, now).hw.counter;
  }

  lemma RefusedWhenNotClear(t: Limits, p: Pos, targ: Pos)
    requires Valid(t) && CalcDirectionGoto(t, p, targ) != DIR_INVALID
    ensures Clear(t, p.ha, p.dec)
  {
    hide Clear;
  }
}
