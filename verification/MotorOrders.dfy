/** What an order is and stays: recorded when it is accepted, kept while it is carried out, and left alone by every
    other command; and how a motion ends. */
module MotorOrders {
  import opened MotorDefs
  import opened SoftLimits
  import opened MotorMachine
  import opened MotorInvariants
  import opened MotorRuns
  import opened MotorEffects
  import opened MotorSky
  import opened MotorGotos

  // ---------------------------------------------------------------- the order of a goto

  /** The goto under way is this one, ordered then. */
  predicate Carries(w: World, targ: Pos, start: int)
    requires WF(w) && w.stat.goto
  {
    Ordered(w.params.g) == targ && w.params.g.startTime == start
  }

  lemma GotoIsRecorded(site: Site, w: World, cmd: GotoCmd, now: int)
    requires ValidSite(site) && Inv(w) && GotoReply(site, w, cmd) == Ok
    ensures var u := Step(site, w, GotoEvent(cmd, now));
            u.stat.goto && Carries(u, Pos(cmd.targHa, cmd.targDec), now) && !u.params.g.cancelled
  {
    hide CalcDirectionGoto, CalcRate, HitsEither, Hits;
  }

  /** The goto is over, or still the same order; cancelled as told. */
  predicate SameGoto(w: World, u: World, cancel: bool)
    requires WF(w) && w.stat.goto
  {
    WF(u) && (u.stat.goto ==> Carries(u, Ordered(w.params.g), w.params.g.startTime)
                              && (u.params.g.cancelled <==> w.params.g.cancelled || cancel))
  }

  lemma EndingSameGoto(site: Site, w: World)
    requires WF(w) && w.stat.goto
    ensures SameGoto(w, EndGoto(site, w), true) && SameGoto(w, Abort(site, w), false)
  {
    hide CreditHa, CreditDec, SendDirection;
  }

  lemma SwitchingSameGoto(site: Site, w: World, on: bool)
    requires WF(w) && w.stat.goto
    ensures SameGoto(w, ToggleAllStop(site, w, on), false) && SameGoto(w, ToggleTracking(site, w, on), false)
  {
    hide StopMove, StartMove;
  }

  lemma HandsetSameGoto(site: Site, w: World, before: bv8, after: bv8, now: int)
    requires WF(w) && w.stat.goto
    ensures SameGoto(w, Handset(site, w, before, after, now), false)
  {
    hide ToggleAllStop, ToggleTracking, HandsetMove, TogglesStop, TogglesTracking, Hits;
    SwitchingSameGoto(site, w, !w.stat.allStop);
    SwitchingSameGoto(site, w, !w.stat.tracking);
  }

  lemma TickSameGoto(site: Site, w: World, reading: bv8, now: int)
    requires ValidSite(site) && Inv(w) && w.stat.goto
    ensures SameGoto(w, Tick(site, w, reading, now), false)
  {
    hide LookAround, CheckGoto, Inv;
    WellFormed(w);
    LookAroundSameGoto(site, w, reading);
    var u := LookAround(site, w, reading);
    CheckSameGoto(site, u, now);
  }

  lemma LookAroundSameGoto(site: Site, w: World, reading: bv8)
    requires ValidSite(site) && WF(w) && w.stat.goto
    ensures var u := LookAround(site, w, reading);
            WF(u) && u.stat.goto && u.params == w.params
  {
    hide CheckSoftLims, CreditHa, CreditDec, ZeroesHa, ZeroesDec;
  }

  lemma FinishSameGoto(site: Site, w: World)
    requires WF(w) && w.stat.goto
    ensures SameGoto(w, FinishGoto(site, w), false)
  {
    hide CreditHa, CreditDec, SendDirection;
  }

  lemma CheckSameGoto(site: Site, w: World, now: int)
    requires ValidSite(site) && WF(w) && w.stat.goto
    ensures SameGoto(w, CheckGoto(site, w, now), false)
  {
    hide HitsEither, Abort, FinishGoto, CalcRampRate, CalcDirectionGoto, GotoTarget, RedirectGoto, RampGoto;
    EndingSameGoto(site, w);
    FinishSameGoto(site, w);
    var targ := GotoTarget(site, w, now);
    FollowSameGoto(site, w, CalcDirectionGoto(site.limits, Pos(w.ha, w.dec), targ), targ);
  }

  lemma FollowSameGoto(site: Site, w: World, dir: bv8, targ: Pos)
    requires WF(w) && w.stat.goto
    ensures WF(RedirectGoto(site, w, dir)) && RedirectGoto(site, w, dir).stat.goto
    ensures SameGoto(w, RampGoto(RedirectGoto(site, w, dir), targ), false)
  {
    hide CalcRampRate, IsNearTarget, CreditHa, CreditDec, SendDirection;
  }

  /** Whatever happens, a goto under way is the one that was ordered, when it was; and only its end order cancels it. */
  lemma GotoKeepsOrder(site: Site, w: World, e: Event)
    requires ValidSite(site) && Inv(w) && w.stat.goto
    ensures SameGoto(w, Step(site, w, e), e.EndGotoEvent?)
  {
    hide Abort, EndGoto, ToggleAllStop, ToggleTracking, Handset, Tick, CalcDirectionGoto, CalcRate, DirMask, Inv;
    WellFormed(w);
    match e
    case HandsetEvent(o, n, now) => HandsetSameGoto(site, w, o, n, now);
    case AllStopEvent(on) => SwitchingSameGoto(site, w, on);
    case TrackingEvent(on) => SwitchingSameGoto(site, w, on);
    case TickEvent(reading, now) => TickSameGoto(site, w, reading, now);
    case _ => EndingSameGoto(site, w);
  }

  lemma WellFormed(w: World)
    requires Inv(w)
    ensures WF(w)
  {
  }

  /** The goto is not over before the end of the run. */
  ghost predicate GoesOn(site: Site, w: World, es: seq<Event>)
    requires ValidSite(site) && Inv(w)
    decreases |es|
  {
    w.stat.goto && (es != [] ==> GoesOn(site, Step(site, w, es[0]), es[1..]))
  }

  /** The target after the run, as the driver has last seen it. */
  ghost function LastTarget(site: Site, w: World, es: seq<Event>, targ: Pos): Pos
    requires ValidSite(site) && Inv(w) && GoesOn(site, w, es)
    decreases |es|
  {
    if es == [] then targ
    else LastTarget(site, Step(site, w, es[0]), es[1..], NextTarget(site, w, es[0], targ))
  }

  lemma {:induction false} BeforeTheLastTick(site: Site, w: World, es: seq<Event>, last: Event, targ: Pos)
    requires ValidSite(site) && Nested(site.limits) && Inv(w) && GoesOn(site, w, es) && OnItsWay(site, w, targ)
    requires UndisturbedRun(site, w, es + [last], targ)
    ensures var u, t := Run(site, w, es), LastTarget(site, w, es, targ);
            && u.stat.goto && Carries(u, Ordered(w.params.g), w.params.g.startTime)
            && OnItsWay(site, u, t) && Undisturbed(site, u, last, t)
    decreases |es|
  {
    hide OnItsWay, Undisturbed, Effect, Nested, NextTarget, Inv;
    var all := es + [last];
    WellFormed(w);
    if es != [] {
      assert all[0] == es[0] && all[1..] == es[1..] + [last];
      EventHolds(site, w, es[0], targ);
      GotoKeepsOrder(site, w, es[0]);
      BeforeTheLastTick(site, Step(site, w, es[0]), es[1..], last, NextTarget(site, w, es[0], targ));
    } else {
      assert all[0] == last;
    }
  }

  /** From its acceptance on, over every undisturbed run, a goto to a safe target is ended by a tick for one of three
      reasons only: a hard limit in its direction, its cancellation, or that the telescope is where the command
      ordered; while tracking, as the sky has taken that place along since the command. */
  lemma GotoEndsOnlyFor(site: Site, w: World, cmd: GotoCmd, start: int, es: seq<Event>, reading: bv8, now: int)
    requires ValidSite(site) && Nested(site.limits) && Inv(w) && GotoReply(site, w, cmd) == Ok
    requires Safe(site, Pos(cmd.targHa, cmd.targDec))
    requires w.stat.tracking ==> PlanHolds(site, w, Pos(cmd.targHa, cmd.targDec))
    requires GoesOn(site, Step(site, w, GotoEvent(cmd, start)), es)
    requires UndisturbedRun(site, Step(site, w, GotoEvent(cmd, start)), es + [TickEvent(reading, now)],
                            Pos(cmd.targHa, cmd.targDec))
    ensures var u := Run(site, Step(site, w, GotoEvent(cmd, start)), es);
            && u.stat.goto
            && (!Step(site, u, TickEvent(reading, now)).stat.goto ==>
                  || Hits(reading, u.params.g.dirCur) || u.params.g.cancelled
                  || IsWhereOrdered(site.hz, u.stat.tracking, Pos(cmd.targHa, cmd.targDec), start, now, Where(site, u)))
  {
    hide OnItsWay, UndisturbedRun, GoesOn, Effect, Nested, Inv, Safe, PlanHolds, IsWhereOrdered, NextTarget, Where;
    var first, targ := Step(site, w, GotoEvent(cmd, start)), Pos(cmd.targHa, cmd.targDec);
    AcceptedGotoStaysClear(site, w, cmd, start, es + [TickEvent(reading, now)]);
    GotoIsRecorded(site, w, cmd, start);
    BeforeTheLastTick(site, first, es, TickEvent(reading, now), targ);
    var u := Run(site, first, es);
    WellFormed(u);
    TickEndsGotoOnlyFor(site, u, reading, now, LastTarget(site, first, es, targ));
    StepIsTick(site, u, reading, now);
  }

  lemma StepIsTick(site: Site, w: World, reading: bv8, now: int)
    requires ValidSite(site) && Inv(w)
    ensures Step(site, w, TickEvent(reading, now)) == Tick(site, w, reading, now)
  {
    hide Tick;
  }

  // ---------------------------------------------------------------- the rate of a goto

  /** The card runs at the rate that the goto has reached. */
  predicate RateIsSent(w: World)
    requires WF(w)
  {
    w.stat.goto ==> w.hw.rate == w.params.g.rateCur
  }

  /** No goto begins, and one under way keeps that. */
  predicate LeavesRate(w: World, u: World)
    requires WF(w)
  {
    WF(u) && (u.stat.goto ==> w.stat.goto) && (RateIsSent(w) ==> RateIsSent(u))
  }

  lemma EndingLeavesRate(site: Site, w: World)
    requires WF(w)
    ensures LeavesRate(w, Abort(site, w)) && LeavesRate(w, EndGoto(site, w))
  {
    hide CreditHa, CreditDec, SendDirection;
  }

  lemma SwitchingLeavesRate(site: Site, w: World, on: bool)
    requires WF(w)
    ensures LeavesRate(w, ToggleTracking(site, w, on)) && LeavesRate(w, ToggleAllStop(site, w, on))
  {
    hide CreditHa, CreditDec, SendDirection;
  }

  lemma CardLeavesRate(site: Site, w: World, cmd: CardCmd, now: int)
    requires WF(w)
    ensures LeavesRate(w, StartCard(site, w, cmd, now)) && LeavesRate(w, EndCard(w))
  {
    hide CreditHa, CreditDec, SendDirection, DirMask, CalcRate, HitsEither;
  }

  lemma HandsetLeavesRate(site: Site, w: World, before: bv8, after: bv8, now: int)
    requires WF(w)
    ensures LeavesRate(w, Handset(site, w, before, after, now))
  {
    hide ToggleAllStop, ToggleTracking, HandsetMove, TogglesStop, TogglesTracking, Hits;
    SwitchingLeavesRate(site, w, !w.stat.allStop);
    SwitchingLeavesRate(site, w, !w.stat.tracking);
    if !w.stat.goto {
      HandsetMoveLeavesRate(site, w, after, now);
    }
  }

  lemma HandsetMoveLeavesRate(site: Site, w: World, hs: bv8, now: int)
    requires WF(w) && !w.stat.goto
    ensures LeavesRate(w, HandsetMove(site, w, hs, now))
  {
    hide CreditHa, CreditDec, SendDirection, CalcRate, HandsetDir, HandsetSpeed, Hits;
  }

  lemma TickLeavesRate(site: Site, w: World, reading: bv8, now: int)
    requires ValidSite(site) && WF(w)
    ensures LeavesRate(w, Tick(site, w, reading, now))
  {
    hide LookAround, CheckGoto, CheckCard, CheckTracking;
    LookLeavesRate(site, w, reading);
    var u := LookAround(site, w, reading);
    if u.stat.goto {
      CheckGotoLeavesRate(site, u, now);
    } else if u.stat.card {
      CheckSameCard(site, u, now);
      CheckCardBeginsNoGoto(site, u, now);
    } else if u.stat.tracking {
      CheckTrackingBeginsNoGoto(site, u);
    }
  }

  lemma LookLeavesRate(site: Site, w: World, reading: bv8)
    requires ValidSite(site) && WF(w)
    ensures LeavesRate(w, LookAround(site, w, reading))
  {
    hide CheckSoftLims, CreditHa, CreditDec, ZeroesHa, ZeroesDec;
  }

  lemma CheckGotoLeavesRate(site: Site, w: World, now: int)
    requires ValidSite(site) && WF(w) && w.stat.goto
    ensures LeavesRate(w, CheckGoto(site, w, now))
  {
    hide HitsEither, Abort, FinishGoto, CalcRampRate, CalcDirectionGoto, GotoTarget, RedirectGoto, RampGoto;
    EndingLeavesRate(site, w);
    FinishSameGoto(site, w);
    FinishEndsGoto(site, w);
    var targ := GotoTarget(site, w, now);
    FollowLeavesRate(site, w, CalcDirectionGoto(site.limits, Pos(w.ha, w.dec), targ), targ);
  }

  lemma FollowLeavesRate(site: Site, w: World, dir: bv8, targ: Pos)
    requires WF(w) && w.stat.goto
    ensures WF(RedirectGoto(site, w, dir)) && RedirectGoto(site, w, dir).stat.goto
    ensures LeavesRate(w, RampGoto(RedirectGoto(site, w, dir), targ))
  {
    hide CalcRampRate, IsNearTarget, CreditHa, CreditDec;
  }

  lemma CheckCardBeginsNoGoto(site: Site, w: World, now: int)
    requires ValidSite(site) && WF(w) && w.stat.card
    ensures !CheckCard(site, w, now).stat.goto
  {
    hide CreditHa, CreditDec, SendDirection, CalcRampRate, FinishCard, Hits;
    FinishBeginsNoGoto(site, w, now);
    if w.params.c.dirCur != 0 {
      FinishBeginsNoGoto(site, RampCard(w), now);
    }
  }

  lemma FinishBeginsNoGoto(site: Site, w: World, now: int)
    requires ValidSite(site) && WF(w) && w.stat.card
    ensures !FinishCard(site, w, now).stat.goto
  {
    hide CreditHa, CreditDec, SendDirection, CalcDirection, TrackTime;
  }

  lemma CheckTrackingBeginsNoGoto(site: Site, w: World)
    requires ValidSite(site) && WF(w) && !w.stat.goto && !w.stat.card && w.stat.tracking
    ensures var u := CheckTracking(site, w); WF(u) && !u.stat.goto
  {
    hide CreditHa, CreditDec, SendDirection, CalcDirection, BookCorrection, DropSmall, HitsEither, TrackPort, TrackRate;
  }

  /** In every reachable state with a goto, the card runs at its rate. */
  lemma RateStaysSent(site: Site, w: World, e: Event)
    requires ValidSite(site) && Inv(w) && RateIsSent(w)
    ensures RateIsSent(Step(site, w, e))
  {
    hide Abort, EndGoto, ToggleAllStop, ToggleTracking, Handset, Tick, CalcDirectionGoto, CalcRate, StartCard, Inv;
    WellFormed(w);
    match e
    case GotoEvent(cmd, now) => StartSendsRate(site, w, cmd, now);
    case EndGotoEvent => EndingLeavesRate(site, w);
    case EndAllEvent => EndingLeavesRate(site, w);
    case CardEvent(cmd, now) => CardLeavesRate(site, w, cmd, now);
    case HandsetEvent(o, n, now) => HandsetLeavesRate(site, w, o, n, now);
    case AllStopEvent(on) => SwitchingLeavesRate(site, w, on);
    case TrackingEvent(on) => SwitchingLeavesRate(site, w, on);
    case TickEvent(reading, now) => TickLeavesRate(site, w, reading, now);
    case _ =>
  }

  lemma StartSendsRate(site: Site, w: World, cmd: GotoCmd, now: int)
    requires ValidSite(site) && WF(w) && RateIsSent(w)
    ensures WF(StartGoto(site, w, cmd, now)) && RateIsSent(StartGoto(site, w, cmd, now))
  {
    hide CalcDirectionGoto, CalcRate, HitsEither, CreditHa, CreditDec;
  }

  lemma {:induction false} GotoRunsAtItsRate(site: Site, w: World, es: seq<Event>)
    requires ValidSite(site) && Inv(w) && RateIsSent(w)
    ensures var u := Run(site, w, es);
            u.stat.goto ==> u.params.Goto? && u.hw.rate == u.params.g.rateCur
    decreases |es|
  {
    if es == [] {
      WellFormed(w);
    } else {
      hide Step, Inv;
      RateStaysSent(site, w, es[0]);
      GotoRunsAtItsRate(site, Step(site, w, es[0]), es[1..]);
    }
  }

  // ---------------------------------------------------------------- the order of a cardinal move

  lemma CardIsRecorded(site: Site, w: World, cmd: CardCmd, now: int)
    requires ValidSite(site) && Inv(w) && CardReply(w, cmd) == Ok
    ensures var u := Step(site, w, CardEvent(cmd, now));
            && u.stat.card && u.params.c.startTime == now && !u.params.c.handset && u.params.c.finalHa == 0
            && u.params.c.dirReq == u.params.c.dirCur != 0
  {
    hide CalcRate, HitsEither, Hits, DirMask;
  }

  lemma HandsetIsRecorded(site: Site, w: World, before: bv8, after: bv8, now: int)
    requires ValidSite(site) && Inv(w) && !w.stat.goto && !w.stat.card && !w.stat.allStop && OnlyMoves(before, after)
    ensures var u := Step(site, w, HandsetEvent(before, after, now));
            u.stat.card && u.params.c.startTime == now && u.params.c.handset && u.params.c.finalHa == 0
  {
    hide HandsetDir, CalcRate, Hits, TogglesStop, TogglesTracking, OnlyMoves;
    OnlyMovesMeans(before, after);
  }

  /** The move is over, or still the same order. */
  predicate SameCard(w: World, u: World)
    requires WF(w) && w.stat.card
  {
    WF(u) &&
    (u.stat.card ==> && u.params.c.startTime == w.params.c.startTime && u.params.c.handset == w.params.c.handset
                     && u.params.c.finalHa == w.params.c.finalHa && u.params.c.dirReq == w.params.c.dirReq
                     && u.params.c.rateReq == w.params.c.rateReq)
  }

  /** A tick leaves the move the same order, or ends it. */
  lemma TickKeepsCard(site: Site, w: World, reading: bv8, now: int)
    requires ValidSite(site) && Inv(w) && w.stat.card
    ensures SameCard(w, Step(site, w, TickEvent(reading, now)))
  {
    hide LookAround, CheckCard, Inv;
    WellFormed(w);
    LookAroundSameCard(site, w, reading);
    CheckSameCard(site, LookAround(site, w, reading), now);
  }

  lemma LookAroundSameCard(site: Site, w: World, reading: bv8)
    requires ValidSite(site) && WF(w) && w.stat.card
    ensures var u := LookAround(site, w, reading);
            WF(u) && u.stat.card && u.params == w.params
  {
    hide CheckSoftLims, CreditHa, CreditDec, ZeroesHa, ZeroesDec;
  }

  lemma CheckSameCard(site: Site, w: World, now: int)
    requires ValidSite(site) && WF(w) && w.stat.card
    ensures SameCard(w, CheckCard(site, w, now))
  {
    hide CardAtLimit, ProceedCard, RampCard, CreditHa, CreditDec, SendDirection;
    RampSameCard(w);
    ProceedSameCard(site, RampCard(w), now);
  }

  lemma RampSameCard(w: World)
    requires WF(w) && w.stat.card
    ensures SameCard(w, RampCard(w)) && RampCard(w).stat.card
  {
    hide CalcRampRate;
  }

  lemma ProceedSameCard(site: Site, w: World, now: int)
    requires ValidSite(site) && WF(w) && w.stat.card
    ensures SameCard(w, ProceedCard(site, w, now))
  {
    hide CreditHa, CreditDec, SendDirection, FinishCard;
    FinishSameCard(site, w, now);
  }

  lemma FinishSameCard(site: Site, w: World, now: int)
    requires ValidSite(site) && WF(w) && w.stat.card
    ensures SameCard(w, FinishCard(site, w, now))
  {
    hide CreditHa, CreditDec, SendDirection, CalcDirection, TrackTime, ResumeTracking;
    ResumingIsNotCard(site, StopMove(site, w));
  }

  /** The end order is for moves that a program began: the handset's go on, and so does everything else. */
  lemma EndOrderIsForPrograms(site: Site, w: World)
    requires ValidSite(site) && Inv(w) && !(w.stat.card && !w.params.c.handset)
    ensures Step(site, w, EndCardEvent) == w
  {
  }

  /** The handset does nothing while nothing changes on it, and cannot move the telescope while a program does, or
      while all is stopped. */
  lemma HandsetIsIgnored(site: Site, w: World, before: bv8, after: bv8, now: int)
    requires ValidSite(site) && Inv(w)
    requires || before == after
             || (OnlyMoves(before, after) && (w.stat.goto || (w.stat.card && !w.params.c.handset)))
             || (OnlyMoves(before, after) && w.stat.allStop && after & 0xF != 0)
    ensures Step(site, w, HandsetEvent(before, after, now)) == w
  {
    hide ToggleAllStop, ToggleTracking, HandsetMove, TogglesStop, TogglesTracking, OnlyMoves;
    OnlyMovesMeans(before, after);
    NothingToggled(before);
    ButtonsMeanWay(after);
  }

  lemma NothingToggled(hs: bv8)
    ensures !TogglesStop(hs, hs) && !TogglesTracking(hs, hs)
  {
  }

  /** A cardinal move whose end is not asked for is ended by its check exactly at a limit switch in its direction, or,
      if a program began it, at a soft limit: the handset may move the telescope beyond those. */
  lemma StoppedAtLimitsExactly(site: Site, w: World, now: int)
    requires ValidSite(site) && Inv(w) && w.stat.card && w.params.c.dirCur != 0 && w.params.c.dirReq != 0
    ensures var u, c := CheckCard(site, w, now), w.params.c;
            && (!u.stat.card <==> w.hardLims & c.dirCur != 0 || (w.altLims & c.dirCur != 0 && !c.handset))
            && (!u.stat.card ==> u.hw.dir == 0 && u.hw.counter == 0 && !u.stat.tracking && !u.stat.goto)
  {
    hide Frozen, CreditHa, CreditDec, CardAtLimit, ProceedCard, RampCard;
    LimitsOfCard(w);
    RampSameCard(w);
    ProceedsAsCard(site, RampCard(w), now);
    AbortStops(site, w);
  }

  lemma LimitsOfCard(w: World)
    requires WF(w) && w.stat.card
    ensures CardAtLimit(w) <==>
            w.hardLims & w.params.c.dirCur != 0 || (w.altLims & w.params.c.dirCur != 0 && !w.params.c.handset)
  {
  }

  lemma ProceedsAsCard(site: Site, w: World, now: int)
    requires ValidSite(site) && WF(w) && w.stat.card && w.params.c.dirReq != 0
    ensures ProceedCard(site, w, now).stat.card
  {
    hide Frozen, CreditHa, CreditDec;
  }

  lemma AbortStops(site: Site, w: World)
    requires WF(w)
    ensures var u := Abort(site, w);
            u.hw.dir == 0 && u.hw.counter == 0 && !u.stat.tracking && !u.stat.goto && !u.stat.card
  {
    hide CreditHa, CreditDec;
  }

  // ---------------------------------------------------------------- coordinates

  /** Coordinates are those set, and both axes are known then; what is known may be said for each axis by itself. */
  lemma CoordinatesAreSet(site: Site, w: World, ha: int, dec: int, haInit: bool, decInit: bool)
    requires ValidSite(site) && Inv(w)
    ensures var u := Step(site, w, SetCoordEvent(ha, dec));
            u == w.(ha := ha, dec := dec, stat := u.stat) && u.stat == w.stat.(haInit := true, decInit := true)
    ensures var v := Step(site, w, SetInitEvent(haInit, decInit));
            v == w.(stat := v.stat) && (v.stat.haInit <==> haInit) && (v.stat.decInit <==> decInit)
            && v.stat.(haInit := true, decInit := true) == w.stat.(haInit := true, decInit := true)
  {
  }

  // ---------------------------------------------------------------- tracking

  /** Tracking is switched exactly where the hour angle is known and not all is stopped; else nothing is done. */
  lemma TrackingIsSwitchedExactly(site: Site, w: World, on: bool)
    requires ValidSite(site) && Inv(w)
    ensures var u := Step(site, w, TrackingEvent(on));
            if w.stat.haInit && !w.stat.allStop then u.stat == w.stat.(tracking := on) else u == w
  {
    hide StartMove, StopMove;
    StartLeavesStatus(site, w);
  }

  lemma StartLeavesStatus(site: Site, w: World)
    requires WF(w)
    ensures StartMove(site, w, DIR_WEST, RATE_SID).stat == w.stat && StopMove(site, w).stat == w.stat
  {
    hide CreditHa, CreditDec, Frozen;
  }

  /** The telescope follows the sky from where the driver takes it to be. */
  predicate FollowsSky(w: World) {
    && BackOnTrack(w) && w.hw.counter == 0xFFFFFF && w.params.t.lastHa == w.ha && w.params.t.lastDec == w.dec
  }

  lemma ResumesExactly(site: Site, w: World)
    requires WF(w) && !w.stat.goto && !w.stat.card && w.hw.dir == 0
    ensures FollowsSky(ResumeTracking(site, w)) <==> w.stat.tracking && w.stat.haInit && !w.stat.allStop
    ensures !(w.stat.tracking && w.stat.haInit && !w.stat.allStop) ==> ResumeTracking(site, w) == w
  {
    hide CreditHa, CreditDec;
  }

  /** A goto that arrives, or is ended slow, leaves the telescope following the sky exactly if it is to track and the
      hour angle is known; else at rest. */
  lemma GotoEndsTrackingExactly(site: Site, w: World)
    requires ValidSite(site) && Inv(w) && w.stat.goto && !w.stat.allStop
    ensures var u := FinishGoto(site, w);
            && !u.stat.goto && !u.stat.card
            && (FollowsSky(u) <==> w.stat.tracking && w.stat.haInit)
            && (!(w.stat.tracking && w.stat.haInit) ==> u.hw.dir == 0 && u.hw.counter == 0)
    ensures w.params.g.rateCur >= 28284 ==> EndGoto(site, w) == FinishGoto(site, w.(params := w.params.(g :=
              w.params.g.(rateReq := 28284, cancelled := true))))
  {
    hide CreditHa, CreditDec, ToggleTracking;
    var v := StopMove(site, w);
    ResumesExactly(site, v.(stat := v.stat.(goto := false)));
    hide Frozen, ResumeTracking;
  }

  /** And so does a cardinal move that is over. */
  lemma CardEndsTrackingExactly(site: Site, w: World, now: int)
    requires ValidSite(site) && Inv(w) && w.stat.card && !w.stat.allStop
    requires !FinishCard(site, w, now).stat.card
    ensures var u := FinishCard(site, w, now);
            && !u.stat.goto
            && (FollowsSky(u) <==> w.stat.tracking && w.stat.haInit)
            && (!(w.stat.tracking && w.stat.haInit) ==> u.hw.dir == 0 && u.hw.counter == 0)
  {
    hide CreditHa, CreditDec, ToggleTracking, CalcDirection, TrackTime;
    var v := StopMove(site, w);
    ResumesExactly(site, v.(stat := v.stat.(card := false)));
    hide Frozen, ResumeTracking;
  }

  /** Corrections within the tolerances are dropped: nothing moves for them, and nothing is left open. */
  lemma SmallCorrectionsAreDropped(site: Site, w: World, adjHa: int, adjDec: int)
    requires ValidSite(site) && Inv(w) && !w.stat.goto && !w.stat.card && w.stat.tracking
    requires w.params.Track? && w.params.t == TrackParams(0, 0, w.ha, w.dec, 0)
    requires (w.hardLims | w.altLims) & 0x1 == 0 && Clear(site.limits, w.ha, w.dec) && InRange(Pos(w.ha, w.dec))
    requires Abs(adjHa) <= 3 && Abs(adjDec) <= 2
    ensures CheckTracking(site, AdjustTracking(site, w, adjHa, adjDec)) == w
  {
    hide Clear, StartMove, CheckTracking, Inv, DropSmall, Towards, Hits;
    WellFormed(w);
    var (a, d) := if Abs(adjHa) < 3 && Abs(adjDec) < 2 then (0, 0) else (adjHa, adjDec);
    assert AdjustTracking(site, w, adjHa, adjDec) == w.(params := Track(w.params.t.(adjHa := a, adjDec := d)));
    DropsSmall(site, w, a, d);
  }

  lemma DropsSmall(site: Site, w: World, a: int, d: int)
    requires ValidSite(site) && WF(w) && !w.stat.goto && !w.stat.card && w.stat.tracking
    requires w.params.Track? && w.params.t == TrackParams(0, 0, w.ha, w.dec, 0)
    requires (w.hardLims | w.altLims) & 0x1 == 0 && Clear(site.limits, w.ha, w.dec) && InRange(Pos(w.ha, w.dec))
    requires Abs(a) <= 3 && Abs(d) <= 2
    ensures CheckTracking(site, w.(params := Track(w.params.t.(adjHa := a, adjDec := d)))) == w
  {
    hide Clear, StartMove, Towards, Hits, HitsEither;
    NoHits();
    NoWestLimit(w.hardLims, w.altLims);
    NowhereToGo(Pos(w.ha, w.dec));
  }

  lemma NoWestLimit(hard: bv8, alt: bv8)
    ensures HitsEither(hard, alt, 0 | DIR_WEST) <==> (hard | alt) & 0x1 != 0
  {
  }

  lemma NowhereToGo(p: Pos)
    ensures Towards(p, Pos(p.ha + 0, p.dec + 0)) == 0
  {
  }

  // ---------------------------------------------------------------- the range of the planner

  /** The planner has no answer exactly for targets beyond the axes and for places that are not clear. */
  lemma NoAnswerExactly(t: Limits, p: Pos, targ: Pos)
    requires Valid(t)
    ensures CalcDirection(t, p, targ) == 0xFF
            <==> !(0 <= targ.ha <= 1155976 && 0 <= targ.dec <= 563056 && Clear(t, p.ha, p.dec))
  {
    hide Clear;
  }

  // ---------------------------------------------------------------- speeding up

  /** Speeding up takes as long as slowing down: from the minimum rate slewing is not reached in 17 steps. */
  lemma SpeedingUpTakesEighteen()
    ensures Ramp(28284, 200, 17) == 211 && Ramp(28284, 200, 18) == 200
  {
    hide Ramp, Fall, Climb;
    NoSteps();
    ClimbAndFallTable();
    RampFalls(0, 17);
    RampArrives(28284, 200, 18);
    FallIsMinimum();
  }

  lemma FallIsMinimum()
    ensures Fall(0) == 28284
  {
  }

  lemma {:induction false} RampFalls(m: nat, n: nat)
    requires Fall(m + n) >= RATE_SLEW && Fall(m) <= RATE_MIN
    ensures Ramp(Fall(m), RATE_SLEW, n) == Fall(m + n)
    decreases n
  {
    if n > 0 {
      FallShrinks(m, m + 1);
      FallShrinks(m + 1, m + n);
      RampFalls(m + 1, n - 1);
    }
  }
}
