/** What every entry point of the motor driver keeps: agreement of the driver with the controller card,
    the position offset, the all-stop condition, and slow reversal. */
module MotorInvariants {
  import opened MotorDefs
  import opened SoftLimits
  import opened MotorMachine

  // ---------------------------------------------------------------- the invariant

  /** While rateCur is faster than the minimum it is the rate last sent; else no faster rate was sent. */
  predicate RateAgrees(rateCur: nat, sent: nat) {
    if rateCur < RATE_MIN then sent == rateCur else sent >= RATE_MIN
  }

  /** The direction last sent is the one the driver works with. Tracking may be flagged while the motor is
      stopped; the union then holds something else. */
  predicate DirAgrees(w: World)
    requires WF(w)
  {
    if w.stat.goto then w.hw.dir == w.params.g.dirCur
    else if w.stat.card then w.hw.dir == w.params.c.dirCur
    else w.hw.dir == 0 || (w.stat.tracking && w.params.Track? && w.hw.dir == TrackPort(w.params.t.trackDir))
  }

  /** A stopped axis has no steps that are not yet credited. */
  predicate CountAgrees(w: World) {
    w.stat.Active() ==> w.hw.counter <= w.last && (Frozen(w.hw.dir) ==> w.hw.counter == w.last)
  }

  predicate RatesAgree(w: World)
    requires WF(w)
  {
    if w.stat.goto then
      RateAgrees(w.params.g.rateCur, w.hw.rate) && w.params.g.rateCur >= RATE_SLEW && w.params.g.rateReq >= RATE_SLEW
    else if w.stat.card then
      RateAgrees(w.params.c.rateCur, w.hw.rate) && w.params.c.rateCur >= RATE_SLEW && w.params.c.rateReq >= RATE_SLEW
    else w.hw.dir != 0 ==> w.hw.rate >= RATE_MIN
  }

  /** All-stop: nothing was sent since the stop, no goto, no tracking, and a card move has no direction. */
  predicate StopKept(w: World)
    requires WF(w)
  {
    w.stat.allStop ==>
      && w.hw.dir == 0 && !w.stat.goto && !w.stat.tracking
      && (w.stat.card ==> w.params.c.dirCur == 0 && w.params.c.dirReq == 0)
  }

  predicate Inv(w: World) {
    WF(w) && DirAgrees(w) && CountAgrees(w) && RatesAgree(w) && StopKept(w)
  }

  // ---------------------------------------------------------------- the offset

  /** Driver coordinate minus mechanical position, counting the steps not yet credited. */
  function OffsetHa(site: Site, w: World): int
    requires WF(w)
  {
    w.ha + CreditHa(DriverDir(site, w), w.last - w.hw.counter) - w.hw.ha
  }

  function OffsetDec(site: Site, w: World): int
    requires WF(w)
  {
    w.dec + CreditDec(DriverDir(site, w), w.last - w.hw.counter) - w.hw.dec
  }

  predicate SameOffset(site: Site, w: World, u: World)
    requires WF(w) && WF(u)
  {
    OffsetHa(site, u) == OffsetHa(site, w) && OffsetDec(site, u) == OffsetDec(site, w)
  }

  /** Commands change the card's registers, never the position of the axes. */
  predicate SamePlace(w: World, u: World) {
    u.hw.ha == w.hw.ha && u.hw.dec == w.hw.dec
  }

  /** Kept by an entry point that neither sets coordinates nor breaks off a fast motion. */
  predicate Keeps(site: Site, w: World, u: World)
    requires WF(w)
  {
    Inv(u) && SameOffset(site, w, u) && SamePlace(w, u) && u.hw.abrupt == w.hw.abrupt
  }

  /** As Keeps, but a fast motion may be broken off once. */
  predicate KeepsButMayStopFast(site: Site, w: World, u: World)
    requires WF(w)
  {
    Inv(u) && SameOffset(site, w, u) && SamePlace(w, u) && w.hw.abrupt <= u.hw.abrupt <= w.hw.abrupt + 1
  }

  /** A moving axis is slow enough to be stopped or turned. */
  predicate Slow(w: World) {
    Frozen(w.hw.dir) || w.hw.rate >= RATE_MIN
  }

  // ---------------------------------------------------------------- building blocks

  /** Pending steps are credited, then forgotten: afterwards the offset no longer depends on the direction. */
  lemma UpdateCoordsKeeps(site: Site, w: World, reset: int)
    requires Inv(w)
    ensures var u := UpdateCoords(site, w, reset);
            && u.ha - u.hw.ha == OffsetHa(site, w) && u.dec - u.hw.dec == OffsetDec(site, w)
            && (reset < 0 ==> Inv(u) && SameOffset(site, w, u))
  {
  }

  /** After a start or stop nothing is pending, so any direction may be stored beside it. */
  predicate Settled(site: Site, w: World, u: World)
    requires WF(w)
  {
    && u.last == u.hw.counter && SamePlace(w, u)
    && u.ha - u.hw.ha == OffsetHa(site, w) && u.dec - u.hw.dec == OffsetDec(site, w)
  }

  lemma SettledKeepsOffset(site: Site, w: World, u: World)
    requires WF(w) && WF(u) && Settled(site, w, u)
    ensures SameOffset(site, w, u)
  {
  }

  lemma StartMoveSettles(site: Site, w: World, dir: bv8, rate: nat)
    requires Inv(w)
    ensures var u := StartMove(site, w, dir, rate);
            && Settled(site, w, u)
            && u.stat == w.stat && u.params == w.params && u.hw.dir == dir && u.hw.rate == AtLeastMin(rate)
            && u.hardLims == w.hardLims && u.altLims == w.altLims
            && (Slow(w) ==> u.hw.abrupt == w.hw.abrupt)
  {
    UpdateCoordsKeeps(site, w, MAX_STEPS);
  }

  lemma StopMoveSettles(site: Site, w: World)
    requires Inv(w)
    ensures var u := StopMove(site, w);
            && Settled(site, w, u)
            && u.stat == w.stat && u.params == w.params && u.hw.dir == 0 && u.hw.rate == w.hw.rate
            && u.hardLims == w.hardLims && u.altLims == w.altLims
            && u.hw.counter == 0 == u.last
            && (Slow(w) ==> u.hw.abrupt == w.hw.abrupt)
            && w.hw.abrupt <= u.hw.abrupt <= w.hw.abrupt + 1
  {
    UpdateCoordsKeeps(site, w, 0);
  }

  lemma AbortKeeps(site: Site, w: World)
    requires Inv(w)
    ensures KeepsButMayStopFast(site, w, Abort(site, w))
    ensures Abort(site, w).hw.dir == 0 && !Abort(site, w).stat.Active()
    ensures Slow(w) ==> Abort(site, w).hw.abrupt == w.hw.abrupt
  {
    StopMoveSettles(site, w);
  }

  // ---------------------------------------------------------------- entry points

  lemma StartGotoKeeps(site: Site, w: World, cmd: GotoCmd, now: int)
    requires ValidSite(site) && Inv(w)
    ensures Keeps(site, w, StartGoto(site, w, cmd, now))
  {
    if GotoReply(site, w, cmd) == Ok {
      var dir := CalcDirectionGoto(site.limits, Pos(w.ha, w.dec), Pos(cmd.targHa, cmd.targDec));
      StartMoveSettles(site, w, dir, CalcRate(dir, cmd.speed, false));
      SettledKeepsOffset(site, w, StartGoto(site, w, cmd, now));
    }
  }

  lemma BeginCardKeeps(site: Site, w: World, dir: bv8, rate: nat, handset: bool, now: int)
    requires ValidSite(site) && Inv(w) && !w.stat.Moving() && (w.stat.allStop ==> dir == 0) && rate >= RATE_SLEW
    ensures Keeps(site, w, BeginCard(site, w, dir, rate, handset, now))
  {
    StartMoveSettles(site, w, dir, rate);
    SettledKeepsOffset(site, w, BeginCard(site, w, dir, rate, handset, now));
  }

  lemma StartCardKeeps(site: Site, w: World, cmd: CardCmd, now: int)
    requires ValidSite(site) && Inv(w)
    ensures Keeps(site, w, StartCard(site, w, cmd, now))
  {
    if CardReply(w, cmd) == Ok {
      var dir := DirMask(cmd.dir);
      BeginCardKeeps(site, w, dir, CalcRate(dir, cmd.speed, w.stat.tracking), false, now);
    }
  }

  /** The stale bytes: when tracking is resumed the union still holds the finished move, but nothing is pending. */
  lemma StartTrackingKeeps(site: Site, w: World)
    requires ValidSite(site) && Inv(w) && !w.stat.Moving() && !w.stat.allStop && w.stat.haInit
    ensures Keeps(site, w, ToggleTracking(site, w, true))
    ensures !ToggleTracking(site, w, true).stat.Moving()
  {
    StartMoveSettles(site, w, DIR_WEST, RATE_SID);
    SettledKeepsOffset(site, w, ToggleTracking(site, w, true));
  }

  lemma StopTrackingKeeps(site: Site, w: World)
    requires ValidSite(site) && Inv(w) && !w.stat.Moving() && !w.stat.allStop && w.stat.haInit
    ensures Keeps(site, w, ToggleTracking(site, w, false))
  {
    StopMoveSettles(site, w);
    SettledKeepsOffset(site, w, ToggleTracking(site, w, false));
  }

  lemma ToggleTrackingKeeps(site: Site, w: World, on: bool)
    requires ValidSite(site) && Inv(w)
    ensures Keeps(site, w, ToggleTracking(site, w, on))
    ensures !w.stat.Moving() ==> !ToggleTracking(site, w, on).stat.Moving()
  {
    if !(w.stat.allStop || !w.stat.haInit || w.stat.Moving()) {
      if on {
        StartTrackingKeeps(site, w);
      } else {
        StopTrackingKeeps(site, w);
      }
    }
  }

  /** Stopping slowly, clearing the move flags and resuming tracking. */
  lemma StopAndResumeKeeps(site: Site, w: World)
    requires ValidSite(site) && Inv(w) && w.stat.Moving() && Slow(w)
    ensures var u := StopMove(site, w);
            var v := u.(stat := u.stat.(goto := false, card := false));
            && Inv(v) && SameOffset(site, w, v)
            && Keeps(site, w, ResumeTracking(site, v))
            && !ResumeTracking(site, v).stat.Moving()
  {
    var u := StopMove(site, w);
    var v := u.(stat := u.stat.(goto := false, card := false));
    StopMoveSettles(site, w);
    SettledKeepsOffset(site, w, v);
    ToggleTrackingKeeps(site, v, true);
  }

  lemma EndGotoKeeps(site: Site, w: World)
    requires ValidSite(site) && Inv(w)
    ensures Keeps(site, w, EndGoto(site, w))
  {
    if w.stat.goto {
      var v := WithGoto(w, w.params.g.(rateReq := RATE_MIN, cancelled := true));
      assert Inv(v) && SameOffset(site, w, v);
      if v.params.g.rateCur >= RATE_MIN {
        StopAndResumeKeeps(site, v);
      }
    }
  }

  lemma EndCardKeeps(site: Site, w: World)
    requires Inv(w)
    ensures Keeps(site, w, EndCard(w))
  {
  }

  lemma ToggleAllStopKeeps(site: Site, w: World, on: bool)
    requires Inv(w)
    ensures KeepsButMayStopFast(site, w, ToggleAllStop(site, w, on))
    ensures !on || Slow(w) ==> Keeps(site, w, ToggleAllStop(site, w, on))
    ensures on ==> ToggleAllStop(site, w, on).hw.dir == 0 && !ToggleAllStop(site, w, on).stat.Active()
  {
    if on {
      AbortKeeps(site, w);
    }
  }

  lemma AdjustTrackingKeeps(site: Site, w: World, adjHa: int, adjDec: int)
    requires Inv(w)
    ensures Keeps(site, w, AdjustTracking(site, w, adjHa, adjDec))
  {
  }

  lemma HandsetKeeps(site: Site, w: World, before: bv8, after: bv8, now: int)
    requires ValidSite(site) && Inv(w)
    ensures KeepsButMayStopFast(site, w, Handset(site, w, before, after, now))
    ensures !(TogglesStop(before, after) && !w.stat.allStop) ==> Keeps(site, w, Handset(site, w, before, after, now))
  {
    if TogglesStop(before, after) {
      ToggleAllStopKeeps(site, w, !w.stat.allStop);
    } else if w.stat.allStop && Hits(after, HS_DIRS) {
    } else if TogglesTracking(before, after) {
      ToggleTrackingKeeps(site, w, !w.stat.tracking);
    } else if before == after || (w.stat.card && !w.params.c.handset) || w.stat.goto {
    } else {
      HandsetMoveKeeps(site, w, after, now);
    }
  }

  lemma HandsetMoveKeeps(site: Site, w: World, hs: bv8, now: int)
    requires ValidSite(site) && Inv(w) && !w.stat.goto
    requires w.stat.allStop ==> !Hits(hs, HS_DIRS)
    ensures Keeps(site, w, HandsetMove(site, w, hs, now))
  {
    if !w.stat.card {
      var dir := HandsetDir(hs);
      assert !Hits(hs, HS_DIRS) ==> dir == 0;
      BeginCardKeeps(site, w, dir, CalcRate(dir, HandsetSpeed(hs), w.stat.tracking), true, now);
    }
  }

  // ---------------------------------------------------------------- monitor

  /** A motion the monitor has to break off. */
  predicate AtLimit(site: Site, w: World)
    requires WF(w)
  {
    if w.stat.goto then HitsEither(w.hardLims, w.altLims, w.params.g.dirCur)
    else if w.stat.card then CardAtLimit(w)
    else w.stat.tracking && HitsEither(w.hardLims, w.altLims, AsTrack(site, w.params).trackDir | DIR_WEST)
  }

  lemma RampGotoKeeps(site: Site, w: World, targ: Pos)
    requires Inv(w) && w.stat.goto
    ensures Keeps(site, w, RampGoto(w, targ))
  {
  }

  lemma RedirectGotoKeeps(site: Site, w: World, dir: bv8)
    requires Inv(w) && w.stat.goto
    ensures Keeps(site, w, RedirectGoto(site, w, dir)) && RedirectGoto(site, w, dir).stat == w.stat
  {
    if dir != w.params.g.dirCur && w.params.g.rateCur >= RATE_MIN {
      StartMoveSettles(site, w, dir, w.params.g.rateCur);
      SettledKeepsOffset(site, w, RedirectGoto(site, w, dir));
    }
  }

  lemma FinishGotoKeeps(site: Site, w: World)
    requires ValidSite(site) && Inv(w) && w.stat.goto && w.params.g.rateCur >= RATE_MIN
    ensures Keeps(site, w, FinishGoto(site, w))
    ensures !FinishGoto(site, w).stat.Moving()
  {
    StopAndResumeKeeps(site, w);
  }

  lemma CheckGotoKeeps(site: Site, w: World, now: int)
    requires ValidSite(site) && Inv(w) && w.stat.goto
    ensures KeepsButMayStopFast(site, w, CheckGoto(site, w, now))
    ensures !AtLimit(site, w) ==> Keeps(site, w, CheckGoto(site, w, now))
    ensures AtLimit(site, w) ==> CheckGoto(site, w, now) == Abort(site, w)
  {
    if AtLimit(site, w) {
      AbortKeeps(site, w);
    } else if w.params.g.cancelled {
      if w.params.g.rateCur >= RATE_MIN {
        FinishGotoKeeps(site, w);
      }
    } else {
      var targ := GotoTarget(site, w, now);
      var dir := CalcDirectionGoto(site.limits, Pos(w.ha, w.dec), targ);
      if dir == 0 && w.params.g.rateCur >= RATE_MIN {
        FinishGotoKeeps(site, w);
      } else {
        RedirectGotoKeeps(site, w, dir);
        RampGotoKeeps(site, RedirectGoto(site, w, dir), targ);
      }
    }
  }

  lemma RampCardKeeps(site: Site, w: World)
    requires Inv(w) && w.stat.card
    ensures Keeps(site, w, RampCard(w))
    ensures RampCard(w).stat == w.stat
  {
  }

  lemma FinishCardKeeps(site: Site, w: World, now: int)
    requires ValidSite(site) && Inv(w) && w.stat.card && w.params.c.rateCur >= RATE_MIN
    requires w.params.c.dirCur != 0
    ensures Keeps(site, w, FinishCard(site, w, now))
  {
    var u := StopMove(site, w);
    StopMoveSettles(site, w);
    StopAndResumeKeeps(site, w);
    var v := WithCard(u, u.params.c.(dirCur := DIR_WEST));
    SettledKeepsOffset(site, w, v);
    var x := WithCard(u, u.params.c.(dirCur := 0));
    SettledKeepsOffset(site, w, x);
    CatchUpKeeps(site, w, u);
  }

  /** Catching up with the sky: the new direction is stored before the move is started; nothing is pending. */
  lemma CatchUpKeeps(site: Site, w: World, u: World)
    requires Inv(w) && w.stat.card && w.params.c.rateCur >= RATE_MIN && !w.stat.allStop
    requires u == StopMove(site, w)
    ensures Keeps(site, w, StartMove(site, WithCard(u, u.params.c.(dirCur := DIR_WEST)), DIR_WEST, RATE_MIN))
  {
    StopMoveSettles(site, w);
  }

  lemma ProceedCardKeeps(site: Site, w: World, now: int)
    requires ValidSite(site) && Inv(w) && w.stat.card && w.params.c.dirCur != 0
    ensures Keeps(site, w, ProceedCard(site, w, now))
  {
    if w.params.c.rateCur >= RATE_MIN {
      if w.params.c.dirReq == 0 {
        FinishCardKeeps(site, w, now);
      } else if w.params.c.dirReq != w.params.c.dirCur {
        StartMoveSettles(site, w, w.params.c.dirReq, RATE_MIN);
        SettledKeepsOffset(site, w, ProceedCard(site, w, now));
      }
    }
  }

  lemma CheckCardKeeps(site: Site, w: World, now: int)
    requires ValidSite(site) && Inv(w) && w.stat.card
    ensures KeepsButMayStopFast(site, w, CheckCard(site, w, now))
    ensures !AtLimit(site, w) ==> Keeps(site, w, CheckCard(site, w, now))
    ensures AtLimit(site, w) ==> CheckCard(site, w, now) == Abort(site, w)
  {
    if AtLimit(site, w) {
      AbortKeeps(site, w);
    } else if w.params.c.dirCur == 0 {
      StopMoveSettles(site, w);
      SettledKeepsOffset(site, w, CheckCard(site, w, now));
    } else {
      RampCardKeeps(site, w);
      ProceedCardKeeps(site, RampCard(w), now);
    }
  }

  /** New parameters for the same tracking motion; the stored direction may only be stale if the motor is stopped. */
  lemma StoreTrackKeeps(site: Site, w: World, t: TrackParams)
    requires ValidSite(site) && Inv(w) && !w.stat.Moving() && w.stat.tracking
    requires t.trackDir == AsTrack(site, w.params).trackDir
    ensures Keeps(site, w, w.(params := Track(t)))
  {
    hide Hits;
  }

  lemma CorrectKeeps(site: Site, w: World, dir: bv8)
    requires ValidSite(site) && Inv(w) && !w.stat.Moving() && w.stat.tracking && w.params.Track?
    ensures Keeps(site, w,
                  StartMove(site, w, TrackPort(dir), TrackRate(dir)).(params := Track(w.params.t.(trackDir := dir))))
  {
    var u := StartMove(site, w, TrackPort(dir), TrackRate(dir)).(params := Track(w.params.t.(trackDir := dir)));
    StartMoveSettles(site, w, TrackPort(dir), TrackRate(dir));
    SettledKeepsOffset(site, w, u);
  }

  lemma CheckTrackingKeeps(site: Site, w: World)
    requires ValidSite(site) && Inv(w) && !w.stat.Moving() && w.stat.tracking
    ensures Keeps(site, w, CheckTracking(site, w))
    ensures AtLimit(site, w) ==> CheckTracking(site, w) == ToggleAllStop(site, w, true)
  {
    hide Hits, StartMove, CalcDirection, TrackPort, TrackRate;
    if AtLimit(site, w) {
      ToggleAllStopKeeps(site, w, true);
    } else {
      var b := BookCorrection(AsTrack(site, w.params), w.ha, w.dec);
      StoreTrackKeeps(site, w, b);
      var c := DropSmall(b);
      StoreTrackKeeps(site, w, c);
      CorrectKeeps(site, w.(params := Track(c)),
                   CalcDirection(site.limits, Pos(w.ha, w.dec), Pos(w.ha + c.adjHa, w.dec + c.adjDec)));
    }
  }

  lemma CheckMotionKeeps(site: Site, w: World, now: int)
    requires ValidSite(site) && Inv(w)
    ensures KeepsButMayStopFast(site, w, CheckMotion(site, w, now))
    ensures !AtLimit(site, w) ==> Keeps(site, w, CheckMotion(site, w, now))
    ensures AtLimit(site, w) ==> CheckMotion(site, w, now).hw.dir == 0 && !CheckMotion(site, w, now).stat.Active()
  {
    if AtLimit(site, w) {
      AbortKeeps(site, w);
      ToggleAllStopKeeps(site, w, true);
    }
    if w.stat.goto {
      CheckGotoKeeps(site, w, now);
    } else if w.stat.card {
      CheckCardKeeps(site, w, now);
    } else if w.stat.tracking {
      CheckTrackingKeeps(site, w);
    }
  }

  /** Only a zero point changes an offset, and only its own axis. */
  lemma LookAroundKeeps(site: Site, w: World, reading: bv8)
    requires ValidSite(site) && Inv(w)
    ensures var u := LookAround(site, w, reading);
            && Inv(u) && u.hw == w.hw && u.params == w.params
            && u.stat == w.stat.(haInit := u.stat.haInit, decInit := u.stat.decInit, errLims := u.stat.errLims)
            && (!ZeroesHa(w, reading) ==> OffsetHa(site, u) == OffsetHa(site, w))
            && (!ZeroesDec(w, reading) ==> OffsetDec(site, u) == OffsetDec(site, w))
  {
    var v := ReadSoftLimits(site, ReadHardLimits(w, reading));
    assert Inv(v);
    UpdateCoordsKeeps(site, v, -1);
  }

  lemma TickKeeps(site: Site, w: World, reading: bv8, now: int)
    requires ValidSite(site) && Inv(w)
    ensures var u := Tick(site, w, reading, now);
            && Inv(u) && SamePlace(w, u) && w.hw.abrupt <= u.hw.abrupt <= w.hw.abrupt + 1
            && (!w.stat.Active() || !ZeroesHa(w, reading) ==> OffsetHa(site, u) == OffsetHa(site, w))
            && (!w.stat.Active() || !ZeroesDec(w, reading) ==> OffsetDec(site, u) == OffsetDec(site, w))
            && (!AtLimit(site, LookAround(site, w, reading)) ==> u.hw.abrupt == w.hw.abrupt)
  {
    LookAroundKeeps(site, w, reading);
    CheckMotionKeeps(site, LookAround(site, w, reading), now);
  }

  // ---------------------------------------------------------------- the axes

  /** The driver credits every tracking motion as west. */
  predicate CorrectingEast(w: World)
    requires WF(w)
  {
    !w.stat.Moving() && w.stat.tracking && !Frozen(w.hw.dir) && !Hits(w.hw.dir, DIR_WEST)
  }

  /** Steps of the axes leave the offset alone, except that a correction to the east is credited as west. */
  lemma MoveStepsKeeps(site: Site, w: World, k: nat)
    requires Inv(w) && k <= w.hw.counter
    ensures var u := w.(hw := MoveSteps(w.hw, k));
            && Inv(u) && u.hw.abrupt == w.hw.abrupt
            && OffsetDec(site, u) == OffsetDec(site, w)
            && OffsetHa(site, u) == OffsetHa(site, w) - (if CorrectingEast(w) then 2 * k else 0)
  {
  }
}
