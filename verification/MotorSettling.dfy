/** How many looks of the monitor a motion takes to do as asked: cardinal moves that turn or end, and gotos that
    ease off near their target. */
module MotorSettling {
  import opened MotorDefs
  import opened SoftLimits
  import opened MotorMachine
  import opened MotorInvariants
  import opened MotorRuns
  import opened MotorSky

  // ---------------------------------------------------------------- cardinal moves

  predicate OnCard(w: World)
    requires WF(w)
  {
    w.stat.card && w.params.c.dirCur != 0
  }

  /** The move goes the way asked for; or its end is asked for, and it is slow and on its way west to catch up. */
  predicate DoesAsAsked(w: World)
    requires WF(w)
  {
    w.stat.card && w.hw.dir == w.params.c.dirCur
    && if w.params.c.dirReq == 0 then w.params.c.dirCur == 0x1 && w.params.c.rateCur >= RATE_MIN
       else w.params.c.dirCur == w.params.c.dirReq
  }

  /** Until it does, each check slows the move down by one ramping step, and at the minimum rate it turns or ends;
      nothing else changes its rate or direction, but for ending it. */
  predicate CardGoesOn(w: World, u: World, checked: bool)
    requires WF(w) && WF(u) && OnCard(w)
  {
    !u.stat.Moving() || DoesAsAsked(u) ||
    (OnCard(u) && u.params.c.dirCur == w.params.c.dirCur &&
     if checked then u.params.c.rateCur == CalcRampRate(w.params.c.rateCur, RATE_MIN) < RATE_MIN
     else u.params.c.rateCur == w.params.c.rateCur)
  }

  lemma RampsToMin(rate: nat)
    ensures rate == RATE_MIN ==> CalcRampRate(rate, RATE_MIN) == RATE_MIN
    ensures rate >= RATE_MIN ==> CalcRampRate(rate, RATE_MIN) >= RATE_MIN
  {
  }

  lemma ProceedGoesOn(site: Site, w: World, now: int)
    requires ValidSite(site) && Inv(w) && OnCard(w) && w.params.c.dirCur != w.params.c.dirReq
    ensures var u := ProceedCard(site, w, now);
            && Inv(u)
            && (w.params.c.rateCur < RATE_MIN ==> u == w)
            && (w.params.c.rateCur >= RATE_MIN ==> !u.stat.Moving() || DoesAsAsked(u))
  {
    ProceedCardKeeps(site, w, now);
    if w.params.c.rateCur >= RATE_MIN {
      if w.params.c.dirReq == 0 {
        EndsOrCatchesUp(site, w, now);
        CardEndIsNoGoto(site, w, now);
      }
    }
    hide FinishCard, CatchesUp, CalcDirection, CreditHa, CreditDec, TrackTime;
  }

  lemma CardEndIsNoGoto(site: Site, w: World, now: int)
    requires ValidSite(site) && WF(w) && w.stat.card
    ensures !FinishCard(site, w, now).stat.goto
    ensures WF(FinishCard(site, w, now)) && FinishCard(site, w, now).stat.card ==>
              FinishCard(site, w, now).params.c.dirReq == w.params.c.dirReq
  {
    hide CalcDirection, CreditHa, CreditDec, SendDirection, TrackTime;
  }

  lemma CheckGoesOn(site: Site, w: World, now: int)
    requires ValidSite(site) && Inv(w) && OnCard(w) && w.params.c.dirCur != w.params.c.dirReq
    ensures var u := CheckCard(site, w, now);
            Inv(u) && CardGoesOn(w, u, true)
  {
    hide ProceedCard, CardAtLimit, Abort, DoesAsAsked, CalcRampRate;
    CheckCardKeeps(site, w, now);
    if CardAtLimit(w) {
      AbortKeeps(site, w);
    } else {
      RampsToMin(w.params.c.rateCur);
      RampCardKeeps(site, w);
      ProceedGoesOn(site, RampCard(w), now);
    }
  }

  lemma TickGoesOn(site: Site, w: World, reading: bv8, now: int)
    requires ValidSite(site) && Inv(w) && OnCard(w) && w.params.c.dirCur != w.params.c.dirReq
    ensures var u := Tick(site, w, reading, now);
            Inv(u) && CardGoesOn(w, u, ReachesCheck(site, w, TickEvent(reading, now)))
  {
    hide LookAround, CheckCard, DoesAsAsked, CalcRampRate, OffsetHa, OffsetDec;
    var v := LookAround(site, w, reading);
    LookAroundKeeps(site, w, reading);
    CheckGoesOn(site, v, now);
  }

  /** Commands end the move, ask for something else, or change flags beside it. */
  predicate CardIsLeft(w: World, u: World)
    requires WF(w) && OnCard(w)
  {
    WF(u) && (!u.stat.Moving() ||
      (OnCard(u) && u.params.c.dirCur == w.params.c.dirCur && u.params.c.rateCur == w.params.c.rateCur))
  }

  lemma CommandLeavesCard(site: Site, w: World, e: Event)
    requires ValidSite(site) && Inv(w) && OnCard(w) && !e.TickEvent? && !e.HandsetEvent?
    ensures CardIsLeft(w, Effect(site, w, e))
  {
    hide CalcDirectionGoto, CreditHa, CreditDec, SendDirection, CalcRate, DirMask, Hits, MoveSteps;
  }

  lemma HandsetLeavesCard(site: Site, w: World, before: bv8, after: bv8, now: int)
    requires ValidSite(site) && Inv(w) && OnCard(w)
    ensures CardIsLeft(w, Handset(site, w, before, after, now))
  {
    hide CreditHa, CreditDec, SendDirection, CalcRate, HandsetDir, HandsetSpeed, Hits, TogglesStop, TogglesTracking;
  }

  lemma EventGoesOn(site: Site, w: World, e: Event)
    requires ValidSite(site) && Inv(w) && OnCard(w) && w.params.c.dirCur != w.params.c.dirReq
    ensures CardGoesOn(w, Step(site, w, e), ReachesCheck(site, w, e))
  {
    hide Effect, Inv, DoesAsAsked, CalcRampRate, Tick, Handset, LookAround;
    if e.TickEvent? {
      TickGoesOn(site, w, e.reading, e.now);
      EffectOfTick(site, w, e);
    } else if e.HandsetEvent? {
      HandsetLeavesCard(site, w, e.oldHs, e.newHs, e.now);
      EffectOfHandset(site, w, e);
    } else {
      CommandLeavesCard(site, w, e);
    }
  }

  lemma EffectOfTick(site: Site, w: World, e: Event)
    requires ValidSite(site) && Inv(w) && e.TickEvent?
    ensures Effect(site, w, e) == Tick(site, w, e.reading, e.now)
  {
  }

  lemma EffectOfHandset(site: Site, w: World, e: Event)
    requires ValidSite(site) && Inv(w) && e.HandsetEvent?
    ensures Effect(site, w, e) == Handset(site, w, e.oldHs, e.newHs, e.now)
  {
  }

  /** While the move is under way, the same is asked for. */
  ghost predicate KeepsAsking(site: Site, w: World, es: seq<Event>, dir: bv8)
    requires ValidSite(site) && Inv(w)
    decreases |es|
  {
    w.stat.card ==>
      w.params.c.dirReq == dir && (es == [] || KeepsAsking(site, Step(site, w, es[0]), es[1..], dir))
  }

  /** A move whose rate reaches the minimum in n ramping steps does as asked, or is over, by its n-th check. */
  lemma {:induction false} CardSettlesIn(site: Site, w: World, es: seq<Event>, n: nat, dir: bv8) returns (k: nat)
    requires ValidSite(site) && Inv(w) && OnCard(w) && KeepsAsking(site, w, es, dir)
    requires n >= 1 && Ramp(w.params.c.rateCur, RATE_MIN, n) >= RATE_MIN && Checks(site, w, es) >= n
    ensures k <= |es| && Checks(site, w, es[..k]) <= n
    ensures var u := Run(site, w, es[..k]); !u.stat.Moving() || (DoesAsAsked(u) && u.params.c.dirReq == dir)
    decreases |es|
  {
    hide CalcRampRate, Effect, ReachesCheck, Run, DoesAsAsked, DirAgrees, CountAgrees, RatesAgree, StopKept;
    if w.params.c.dirCur == w.params.c.dirReq {
      k := 0;
      NothingRun(site, w);
      AgreesAlready(w);
    } else {
      EventGoesOn(site, w, es[0]);
      var u, rest := Step(site, w, es[0]), 0;
      if !u.stat.Moving() || DoesAsAsked(u) {
        assert es[1..][..0] == [];
        NothingRun(site, u);
        AskedIsCard(u);
      } else {
        rest := CardSettlesIn(site, u, es[1..], if ReachesCheck(site, w, es[0]) then n - 1 else n, dir);
      }
      k := rest + 1;
      FirstAndRest(site, w, es, rest);
    }
  }

  lemma AgreesAlready(w: World)
    requires Inv(w) && OnCard(w) && w.params.c.dirCur == w.params.c.dirReq
    ensures DoesAsAsked(w)
  {
  }

  lemma AskedIsCard(w: World)
    requires WF(w)
    ensures DoesAsAsked(w) ==> w.stat.card
  {
  }

  /** From every reachable state of a cardinal move, eighteen checks are enough. */
  lemma CardSettles(site: Site, w: World, es: seq<Event>, dir: bv8) returns (k: nat)
    requires ValidSite(site) && Inv(w) && OnCard(w) && KeepsAsking(site, w, es, dir) && Checks(site, w, es) >= 18
    ensures k <= |es| && Checks(site, w, es[..k]) <= 18
    ensures var u := Run(site, w, es[..k]); !u.stat.Moving() || (DoesAsAsked(u) && u.params.c.dirReq == dir)
  {
    hide Ramp, Checks, Run, DoesAsAsked, KeepsAsking;
    CardRate(w);
    if w.params.c.rateCur < RATE_MIN {
      RampArrives(w.params.c.rateCur, RATE_MIN, 18);
    } else {
      RampStaysSlow(w.params.c.rateCur, 18);
    }
    k := CardSettlesIn(site, w, es, 18, dir);
  }

  lemma CardRate(w: World)
    requires Inv(w) && w.stat.card
    ensures w.params.c.rateCur >= RATE_SLEW
  {
  }

  lemma {:induction false} RampStaysSlow(rate: nat, n: nat)
    requires rate >= RATE_MIN
    ensures Ramp(rate, RATE_MIN, n) >= RATE_MIN
    decreases n
  {
    if n > 0 {
      RampsToMin(rate);
      RampStaysSlow(CalcRampRate(rate, RATE_MIN), n - 1);
    }
  }

  // ---------------------------------------------------------------- gotos

  /** Along the axis that moves, the target is nearer than 3177 steps in declination or 2334 in hour angle. */
  predicate CloseBy(dir: bv8, p: Pos, targ: Pos) {
    (dir & 0xC != 0 && -3177 < targ.dec - p.dec < 3177) || (dir & 0x3 != 0 && -2334 < targ.ha - p.ha < 2334)
  }

  lemma CloseByIsNear(dir: bv8, p: Pos, targ: Pos)
    ensures IsNearTarget(dir, p, targ) <==> CloseBy(dir, p, targ)
  {
  }

  /** A check that does not end a goto takes its rate one ramping step towards the minimum close by the target, and else
      towards the ordered rate. */
  lemma GotoRampsExactly(site: Site, w: World, now: int)
    requires ValidSite(site) && WF(w) && w.stat.goto && w.last == w.hw.counter
    ensures var u := FollowGoto(site, w, now);
            u.stat.goto ==>
              && u.params.Goto? && u.params.g.rateReq == w.params.g.rateReq
              && u.params.g.rateCur == CalcRampRate(w.params.g.rateCur,
                   if CloseBy(u.params.g.dirCur, Pos(w.ha, w.dec), GotoTarget(site, w, now)) then 28284
                   else w.params.g.rateReq)
  {
    hide CloseBy, CalcDirectionGoto, CalcRampRate, CreditHa, CreditDec, SendDirection, IsNearTarget, GotoTarget;
    var targ := GotoTarget(site, w, now);
    var dir := CalcDirectionGoto(site.limits, Pos(w.ha, w.dec), targ);
    if !(dir == 0 && w.params.g.rateCur >= RATE_MIN) {
      var v := RedirectGoto(site, w, dir);
      SettledRedirect(site, w, dir);
      CloseByIsNear(v.params.g.dirCur, Pos(w.ha, w.dec), targ);
    }
    FinishedIsNoGoto(site, w);
    hide RedirectGoto, FinishGoto;
  }

  lemma SettledRedirect(site: Site, w: World, dir: bv8)
    requires WF(w) && w.stat.goto && w.last == w.hw.counter
    ensures var v := RedirectGoto(site, w, dir);
            && WF(v) && v.stat == w.stat && v.ha == w.ha && v.dec == w.dec && v.params.Goto?
            && v.params.g == w.params.g.(dirCur := v.params.g.dirCur)
            && (w.params.g.rateCur < RATE_MIN ==> v.params.g.dirCur == w.params.g.dirCur)
  {
    hide Hits;
  }

  /** Close by the target a goto slower than the minimum rate gets faster: one at guide speed comes in faster than
      it was ordered to go. */
  lemma FasterCloseByExactly(site: Site, w: World, now: int)
    requires ValidSite(site) && Inv(w) && w.stat.goto && w.last == w.hw.counter && FollowGoto(site, w, now).stat.goto
    requires Inv(FollowGoto(site, w, now))
    requires CloseBy(FollowGoto(site, w, now).params.g.dirCur, Pos(w.ha, w.dec), GotoTarget(site, w, now))
    ensures FollowGoto(site, w, now).params.g.rateCur < w.params.g.rateCur <==> w.params.g.rateCur > 28284
  {
    hide FollowGoto, CloseBy, GotoTarget, DirAgrees, CountAgrees, StopKept;
    GotoRampsExactly(site, w, now);
  }

  lemma FinishedIsNoGoto(site: Site, w: World)
    requires WF(w) && w.stat.goto
    ensures !FinishGoto(site, w).stat.goto
  {
    hide CreditHa, CreditDec, SendDirection;
  }

  /** A fast goto that is looked at. */
  predicate Rushes(w: World)
    requires WF(w)
  {
    w.stat.goto && w.params.g.rateCur < RATE_MIN
  }

  /** Each check slows it down by one ramping step; nothing else changes its rate or direction, but for ending it. */
  predicate GotoGoesOn(w: World, u: World, checked: bool)
    requires WF(w) && WF(u) && Rushes(w)
  {
    !u.stat.Moving() ||
    (u.stat.goto && u.params.g.dirCur == w.params.g.dirCur
     && u.params.g.rateCur == if checked then CalcRampRate(w.params.g.rateCur, RATE_MIN) else w.params.g.rateCur)
  }

  /** The check of this tick finds the goto cancelled or close by its target. */
  predicate FindsCloseBy(site: Site, w: World, e: Event)
    requires ValidSite(site) && Inv(w) && w.stat.goto
  {
    ReachesCheck(site, w, e) ==>
      var v := LookAround(site, w, e.reading);
      w.params.g.cancelled || CloseBy(w.params.g.dirCur, Pos(v.ha, v.dec), GotoTarget(site, w, e.now))
  }

  lemma RushingTick(site: Site, w: World, reading: bv8, now: int)
    requires ValidSite(site) && Inv(w) && Rushes(w) && FindsCloseBy(site, w, TickEvent(reading, now))
    ensures var u := Tick(site, w, reading, now);
            WF(u) && GotoGoesOn(w, u, ReachesCheck(site, w, TickEvent(reading, now)))
  {
    hide CheckGoto, CalcRampRate, CloseBy, GotoTarget, OffsetHa, OffsetDec, HitsEither;
    var v := LookAround(site, w, reading);
    LookAroundKeeps(site, w, reading);
    LooksSettled(site, w, reading);
    TickKeeps(site, w, reading, now);
    TargetStays(site, w, v, now);
    RushingCheck(site, v, now);
    hide LookAround;
  }

  lemma TargetStays(site: Site, w: World, v: World, now: int)
    requires ValidSite(site) && WF(w) && WF(v) && w.stat.goto && v.stat.goto && v.params == w.params
    requires v.stat.tracking == w.stat.tracking
    ensures GotoTarget(site, v, now) == GotoTarget(site, w, now)
  {
  }

  lemma LooksSettled(site: Site, w: World, reading: bv8)
    requires ValidSite(site) && WF(w)
    ensures LookAround(site, w, reading).last == LookAround(site, w, reading).hw.counter
  {
  }

  lemma RushingCheck(site: Site, w: World, now: int)
    requires ValidSite(site) && Inv(w) && Rushes(w) && w.last == w.hw.counter
    ensures w.params.g.cancelled || CloseBy(w.params.g.dirCur, Pos(w.ha, w.dec), GotoTarget(site, w, now)) ==>
              var u := CheckGoto(site, w, now); WF(u) && GotoGoesOn(w, u, true)
  {
    hide CalcRampRate, CloseBy, GotoTarget, HitsEither, Abort, FollowGoto, FinishGoto;
    CheckGotoKeeps(site, w, now);
    if AtLimit(site, w) {
      AbortKeeps(site, w);
    }
    GotoRampsExactly(site, w, now);
    RushingFollows(site, w, now);
  }

  lemma RushingFollows(site: Site, w: World, now: int)
    requires ValidSite(site) && WF(w) && Rushes(w)
    ensures var u := FollowGoto(site, w, now); u.stat.goto && u.params.Goto? && u.params.g.dirCur == w.params.g.dirCur
  {
    hide CalcDirectionGoto, CalcRampRate, IsNearTarget, GotoTarget, FinishGoto;
  }

  lemma RushingCommand(site: Site, w: World, e: Event)
    requires ValidSite(site) && Inv(w) && Rushes(w) && !e.TickEvent?
    ensures WF(Effect(site, w, e)) && GotoGoesOn(w, Effect(site, w, e), false)
  {
    hide CalcDirectionGoto, StopMove, CalcRate, HandsetMove, BeginCard, DirMask, Hits, MoveSteps, ResumeTracking;
    hide TogglesStop, TogglesTracking, CalcRampRate, StartMove;
  }

  lemma RushingEvent(site: Site, w: World, e: Event)
    requires ValidSite(site) && Inv(w) && Rushes(w) && FindsCloseBy(site, w, e)
    ensures GotoGoesOn(w, Step(site, w, e), ReachesCheck(site, w, e))
  {
    hide Effect, CalcRampRate, Tick, LookAround, DirAgrees, CountAgrees, RatesAgree, StopKept, CloseBy, GotoTarget;
    if e.TickEvent? {
      RushingTick(site, w, e.reading, e.now);
      EffectOfTick(site, w, e);
    } else {
      RushingCommand(site, w, e);
    }
  }

  /** While the goto is fast, its checks find it close by the target. */
  ghost predicate StaysCloseBy(site: Site, w: World, es: seq<Event>)
    requires ValidSite(site) && Inv(w)
    decreases |es|
  {
    Rushes(w) && es != [] ==> FindsCloseBy(site, w, es[0]) && StaysCloseBy(site, Step(site, w, es[0]), es[1..])
  }

  lemma {:induction false} EasesOffIn(site: Site, w: World, es: seq<Event>, n: nat) returns (k: nat)
    requires ValidSite(site) && Inv(w) && w.stat.goto && StaysCloseBy(site, w, es)
    requires Ramp(w.params.g.rateCur, RATE_MIN, n) >= RATE_MIN && Checks(site, w, es) >= n
    ensures k <= |es| && Checks(site, w, es[..k]) <= n
    ensures var u := Run(site, w, es[..k]); !u.stat.Moving() || (u.stat.goto && u.params.g.rateCur >= RATE_MIN)
    decreases |es|
  {
    hide CalcRampRate, Effect, ReachesCheck, Run, FindsCloseBy, DirAgrees, CountAgrees, RatesAgree, StopKept;
    if w.params.g.rateCur >= RATE_MIN {
      k := 0;
      NothingRun(site, w);
    } else {
      RushingEvent(site, w, es[0]);
      var u, rest := Step(site, w, es[0]), 0;
      if !u.stat.Moving() {
        assert es[1..][..0] == [];
        NothingRun(site, u);
      } else {
        rest := EasesOffIn(site, u, es[1..], if ReachesCheck(site, w, es[0]) then n - 1 else n);
      }
      k := rest + 1;
      FirstAndRest(site, w, es, rest);
    }
  }

  /** Every goto in every reachable state: after eighteen checks close by its target it is slow, or over. */
  lemma EasesOff(site: Site, w: World, es: seq<Event>) returns (k: nat)
    requires ValidSite(site) && Inv(w) && w.stat.goto && StaysCloseBy(site, w, es) && Checks(site, w, es) >= 18
    ensures k <= |es| && Checks(site, w, es[..k]) <= 18
    ensures var u := Run(site, w, es[..k]); !u.stat.Moving() || (u.stat.goto && u.params.g.rateCur >= RATE_MIN)
  {
    hide Ramp, Checks, Run, StaysCloseBy;
    GotoRate(w);
    if w.params.g.rateCur < RATE_MIN {
      RampArrives(w.params.g.rateCur, RATE_MIN, 18);
    } else {
      RampStaysSlow(w.params.g.rateCur, 18);
    }
    k := EasesOffIn(site, w, es, 18);
  }

  lemma GotoRate(w: World)
    requires Inv(w) && w.stat.goto
    ensures w.params.g.rateCur >= RATE_SLEW
  {
  }
}
