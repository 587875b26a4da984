/** The motor driver as the C code has it: one object whose methods change its fields step by step.
    Each method is proved to do what the function of the same name in MotorMachine says, and to keep Valid. */
module MotorDriver {
  import opened MotorDefs
  import opened SoftLimits
  import opened MotorMachine
  import opened MotorInvariants
  import opened MotorRuns

  class Driver {
    const site: Site
    var stat: Status
    var hardLims: bv8
    var altLims: bv8
    var ha: int
    var dec: int
    var params: MoveParams
    var last: int
    /** The controller card and the axes behind it. */
    var hw: Hardware

    ghost function State(): World
      reads this
    {
      World(stat, hardLims, altLims, ha, dec, params, last, hw)
    }

    ghost predicate Valid()
      reads this
    {
      ValidSite(site) && Inv(State())
    }

    constructor (site: Site, hw: Hardware)
      requires ValidSite(site) && hw.dir == 0
      ensures Valid() && this.site == site && State() == Boot(hw)
    {
      this.site, this.hw := site, hw;
      stat := Status(false, false, false, false, false, false, false);
      hardLims, altLims := 0, 0;
      ha, dec := 0, 0;
      params := Track(TrackParams(0, 0, 0, 0, 0));
      last := 0;
    }

    // -------------------------------------------------------------- card registers

    method SendSteps(steps: nat)
      modifies this`hw
      ensures hw == old(hw).(counter := steps)
    {
      hw := hw.(counter := steps);
    }

    method SendRate(rate: nat)
      modifies this`hw
      ensures hw == old(hw).(rate := rate)
    {
      hw := hw.(rate := rate);
    }

    // -------------------------------------------------------------- moving and stopping

    method UpdateMotorCoords(reset: int)
      requires WF(State())
      modifies this`ha, this`dec, this`last
      ensures State() == UpdateCoords(site, old(State()), reset)
    {
      var newSteps := hw.counter;
      var dir: bv8 := 0;
      if stat.goto {
        dir := params.g.dirCur;
      } else if stat.card {
        dir := params.c.dirCur;
      } else if stat.tracking {
        dir := AsTrack(site, params).trackDir | DIR_WEST;
      }
      if Hits(dir, DIR_WEST) {
        ha := ha - (last - newSteps);
      } else if Hits(dir, DIR_EAST) {
        ha := ha + (last - newSteps);
      }
      if Hits(dir, DIR_NORTH) {
        dec := dec + (last - newSteps);
      } else if Hits(dir, DIR_SOUTH) {
        dec := dec - (last - newSteps);
      }
      last := if reset >= 0 then reset else newSteps;
    }

    method BeginMove(dir: bv8, rate: nat)
      requires WF(State())
      modifies this`ha, this`dec, this`last, this`hw
      ensures State() == StartMove(site, old(State()), dir, rate)
    {
      UpdateMotorCoords(MAX_STEPS);
      SendSteps(MAX_STEPS);
      var rateBefore := hw.rate;
      SendRate(AtLeastMin(rate));
      hw := SendDirection(hw, dir, rateBefore);
    }

    method HaltMove()
      requires WF(State())
      modifies this`ha, this`dec, this`last, this`hw
      ensures State() == StopMove(site, old(State()))
    {
      UpdateMotorCoords(0);
      SendSteps(0);
      hw := SendDirection(hw, 0, hw.rate);
    }

    method EndAll()
      requires Valid()
      modifies this
      ensures Valid() && State() == Abort(site, old(State()))
    {
      AbortKeeps(site, State());
      HaltMove();
      stat := stat.(goto := false, card := false, tracking := false);
    }

    // -------------------------------------------------------------- commands

    method StartGotoMove(cmd: GotoCmd, now: int) returns (reply: Reply)
      requires Valid()
      modifies this
      ensures Valid() && State() == StartGoto(site, old(State()), cmd, now)
      ensures reply == GotoReply(site, old(State()), cmd)
    {
      StartGotoKeeps(site, State(), cmd, now);
      assert WF(State()) && Inv(StartGoto(site, State(), cmd, now));
      hide Inv, Keeps, HitsEither, CalcRate, CalcDirectionGoto, StartMove;
      var dir := CalcDirectionGoto(site.limits, Pos(ha, dec), Pos(cmd.targHa, cmd.targDec));
      var rate := CalcRate(dir, cmd.speed, false);
      if stat.Moving() || stat.allStop {
        reply := Again;
      } else if !stat.haInit && !stat.decInit {
        reply := Perm;
      } else if dir == DIR_INVALID || dir == 0 || HitsEither(hardLims, altLims, dir) || rate == 0 {
        reply := Inval;
      } else {
        BeginMove(dir, rate);
        params := Goto(GotoParams(cmd.targHa, cmd.targDec, dir, rate, AtLeastMin(rate), false, now));
        stat := stat.(goto := true);
        reply := Ok;
      }
    }

    method EndGotoMove()
      requires Valid()
      modifies this
      ensures Valid() && State() == EndGoto(site, old(State()))
    {
      EndGotoKeeps(site, State());
      if !stat.goto {
        return;
      }
      params := Goto(params.g.(rateReq := RATE_MIN, cancelled := true));
      if params.g.rateCur >= RATE_MIN {
        HaltMove();
        stat := stat.(goto := false, card := false);
        if stat.tracking {
          SwitchTracking(true);
        }
      }
    }

    method StartCardMove(cmd: CardCmd, now: int) returns (reply: Reply)
      requires Valid()
      modifies this
      ensures Valid() && State() == StartCard(site, old(State()), cmd, now)
      ensures reply == CardReply(old(State()), cmd)
    {
      StartCardKeeps(site, State(), cmd, now);
      assert WF(State()) && Inv(StartCard(site, State(), cmd, now));
      hide Inv, Keeps, HitsEither, CalcRate, DirMask, BeginCard;
      var dir := DirMask(cmd.dir);
      var rate := CalcRate(dir, cmd.speed, stat.tracking);
      if stat.Moving() || stat.allStop {
        reply := Again;
      } else if !stat.haInit && !stat.decInit {
        reply := Perm;
      } else if dir == 0 || HitsEither(hardLims, altLims, dir) || rate == 0 {
        reply := Inval;
      } else {
        BeginCardMove(dir, rate, false, now);
        reply := Ok;
      }
    }

    method BeginCardMove(dir: bv8, rate: nat, handset: bool, now: int)
      requires WF(State())
      modifies this
      ensures State() == BeginCard(site, old(State()), dir, rate, handset, now)
    {
      BeginMove(dir, rate);
      params := Card(CardParams(dir, dir, rate, AtLeastMin(rate), handset, 0, now));
      stat := stat.(card := true);
    }

    method EndCardMove()
      requires Valid()
      modifies this`params
      ensures Valid() && State() == EndCard(old(State()))
    {
      EndCardKeeps(site, State());
      if !stat.card || params.c.handset {
        return;
      }
      params := Card(params.c.(rateReq := RATE_MIN, dirReq := 0));
      if stat.tracking {
        params := Card(params.c.(finalHa := ha));
      }
    }

    method SwitchAllStop(on: bool)
      requires Valid()
      modifies this
      ensures Valid() && State() == ToggleAllStop(site, old(State()), on)
    {
      ToggleAllStopKeeps(site, State(), on);
      if on {
        HaltMove();
        stat := stat.(goto := false, card := false, tracking := false, allStop := true);
      } else {
        stat := stat.(allStop := false);
      }
    }

    /** Also called while the finished move is still in the union. */
    method SwitchTracking(on: bool)
      requires ValidSite(site) && WF(State())
      modifies this
      ensures State() == ToggleTracking(site, old(State()), on)
    {
      if stat.allStop || !stat.haInit {
        return;
      }
      if stat.Moving() {
        stat := stat.(tracking := on);
        return;
      }
      if on {
        BeginMove(DIR_WEST, RATE_SID);
        params := Track(TrackParams(0, 0, ha, dec, 0));
      } else {
        HaltMove();
      }
      stat := stat.(tracking := on);
    }

    method SetTracking(on: bool)
      requires Valid()
      modifies this
      ensures Valid() && State() == ToggleTracking(site, old(State()), on)
    {
      ToggleTrackingKeeps(site, State(), on);
      SwitchTracking(on);
    }

    method Adjust(adjHa: int, adjDec: int)
      requires Valid()
      modifies this`params
      ensures Valid() && State() == AdjustTracking(site, old(State()), adjHa, adjDec)
    {
      AdjustTrackingKeeps(site, State(), adjHa, adjDec);
      if stat.Moving() || !stat.tracking {
        return;
      }
      if Abs(adjHa) < TOLERANCE_HA && Abs(adjDec) < TOLERANCE_DEC {
        return;
      }
      params := Track(AsTrack(site, params).(adjHa := adjHa, adjDec := adjDec));
    }

    method SetPosition(ha: int, dec: int)
      requires Valid()
      modifies this`ha, this`dec, this`stat
      ensures Valid() && State() == SetCoord(old(State()), ha, dec)
    {
      this.ha, this.dec := ha, dec;
      stat := stat.(haInit := true, decInit := true);
    }

    method SetInitialised(haInit: bool, decInit: bool)
      requires Valid()
      modifies this`stat
      ensures Valid() && State() == SetInit(old(State()), haInit, decInit)
    {
      stat := stat.(haInit := haInit, decInit := decInit);
    }

    // -------------------------------------------------------------- handset

    method HandleHandset(oldHs: bv8, newHs: bv8, now: int)
      requires Valid()
      modifies this
      ensures Valid() && State() == Handset(site, old(State()), oldHs, newHs, now)
    {
      HandsetKeeps(site, State(), oldHs, newHs, now);
      if TogglesStop(oldHs, newHs) {
        SwitchAllStop(!stat.allStop);
        return;
      }
      if stat.allStop && Hits(newHs, HS_DIRS) {
        return;
      }
      if TogglesTracking(oldHs, newHs) {
        SwitchTracking(!stat.tracking);
        return;
      }
      if oldHs == newHs {
        return;
      }
      if (stat.card && !params.c.handset) || stat.goto {
        return;
      }
      MoveByHandset(newHs, now);
    }

    method MoveByHandset(hs: bv8, now: int)
      requires ValidSite(site) && WF(State()) && !stat.goto
      modifies this
      ensures State() == HandsetMove(site, old(State()), hs, now)
    {
      if !Hits(hs, HS_DIRS) && stat.card {
        params := Card(params.c.(dirReq := 0));
        if stat.tracking {
          params := Card(params.c.(finalHa := ha));
        }
        return;
      }
      var dir := HandsetDir(hs);
      var rate := CalcRate(dir, HandsetSpeed(hs), stat.tracking);
      if stat.card {
        params := Card(params.c.(dirReq := dir, rateReq := rate));
        return;
      }
      BeginCardMove(dir, rate, true, now);
    }

    // -------------------------------------------------------------- monitor

    method CheckMotors(reading: bv8, now: int)
      requires Valid()
      modifies this
      ensures Valid() && State() == Tick(site, old(State()), reading, now)
    {
      hide CheckGoto, CheckCard, CheckTracking, SameOffset, Hits;
      TickKeeps(site, State(), reading, now);
      if !stat.Active() {
        return;
      }
      LookAroundKeeps(site, State(), reading);
      var changed := CheckLimits(reading);
      UpdateMotorCoords(-1);
      if !changed {
        if stat.goto {
          CheckGotoMove(now);
        } else if stat.card {
          CheckCardMove(now);
        } else {
          CheckTrackingMove();
        }
      }
    }

    /** Limit switches, zero points and soft limits; tells whether a flag changed. */
    method CheckLimits(reading: bv8) returns (changed: bool)
      requires ValidSite(site) && WF(State())
      modifies this`hardLims, this`altLims, this`ha, this`dec, this`stat
      ensures State() == ReadSoftLimits(site, ReadHardLimits(old(State()), reading))
      ensures changed <==> FlagsChanged(old(State()), State())
    {
      changed := false;
      if hardLims != reading {
        changed := CheckSwitches(reading);
      }
      var limChanged := CheckAltitude();
      changed := changed || limChanged;
    }

    method CheckAltitude() returns (changed: bool)
      requires ValidSite(site)
      modifies this`altLims, this`stat
      ensures State() == ReadSoftLimits(site, old(State()))
      ensures changed <==> stat.errLims != old(stat).errLims
    {
      hide CheckSoftLims;
      changed := false;
      altLims := CheckSoftLims(site.limits, ha, dec);
      if !(altLims == 0 && hardLims == 0) && !stat.errLims {
        stat := stat.(errLims := true);
        changed := true;
      } else if altLims == 0 && hardLims == 0 && stat.errLims {
        stat := stat.(errLims := false);
        changed := true;
      }
    }

    method CheckSwitches(reading: bv8) returns (changed: bool)
      requires hardLims != reading
      modifies this`hardLims, this`ha, this`dec, this`stat
      ensures State() == ReadHardLimits(old(State()), reading)
      ensures changed <==> FlagsChanged(old(State()), State())
    {
      hide Hits;
      changed := false;
      if Hits(reading, DIR_SOUTH) && (dec < DEC_INIT_LIM || !stat.decInit) {
        dec := 0;
        if !stat.decInit {
          stat := stat.(decInit := true);
          changed := true;
        }
      }
      if Hits(reading, DIR_WEST) && (ha < HA_INIT_LIM || !stat.haInit) {
        ha := 0;
        if !stat.haInit {
          stat := stat.(haInit := true);
          changed := true;
        }
      }
      hardLims := reading;
    }

    method StopForLimit()
      requires WF(State())
      modifies this
      ensures State() == Abort(site, old(State()))
    {
      HaltMove();
      stat := stat.(goto := false, card := false, tracking := false);
    }

    method CompleteGoto()
      requires ValidSite(site) && WF(State()) && stat.goto
      modifies this
      ensures State() == FinishGoto(site, old(State()))
    {
      HaltMove();
      stat := stat.(goto := false);
      if stat.tracking {
        SwitchTracking(true);
      }
    }

    method CheckGotoMove(now: int)
      requires ValidSite(site) && WF(State()) && stat.goto
      modifies this
      ensures State() == CheckGoto(site, old(State()), now)
    {
      hide HitsEither, FollowGoto, EaseGoto, Abort;
      if HitsEither(hardLims, altLims, params.g.dirCur) {
        StopForLimit();
      } else if params.g.cancelled {
        WindDownGoto();
      } else {
        PursueGoto(now);
      }
    }

    method WindDownGoto()
      requires ValidSite(site) && WF(State()) && stat.goto
      modifies this
      ensures State() == EaseGoto(site, old(State()))
    {
      if params.g.rateCur < RATE_MIN {
        var rate := CalcRampRate(params.g.rateCur, RATE_MIN);
        SendRate(rate);
        params := Goto(params.g.(rateCur := rate));
      } else {
        CompleteGoto();
      }
    }

    method PursueGoto(now: int)
      requires ValidSite(site) && WF(State()) && stat.goto
      modifies this
      ensures State() == FollowGoto(site, old(State()), now)
    {
      hide FinishGoto, RampGoto, RedirectGoto;
      var targ := Pos(params.g.targHa, params.g.targDec);
      if stat.tracking {
        targ := targ.(ha := params.g.targHa - TrackTime(site, now, params.g.startTime));
      }
      var dir := CalcDirectionGoto(site.limits, Pos(ha, dec), targ);
      if dir == 0 && params.g.rateCur >= RATE_MIN {
        CompleteGoto();
      } else {
        TurnAndRamp(dir, targ);
      }
    }

    method TurnAndRamp(dir: bv8, targ: Pos)
      requires ValidSite(site) && WF(State()) && stat.goto
      modifies this
      ensures State() == RampGoto(RedirectGoto(site, old(State()), dir), targ)
    {
      if dir != params.g.dirCur && params.g.rateCur >= RATE_MIN {
        BeginMove(dir, params.g.rateCur);
        params := Goto(params.g.(dirCur := dir));
      }
      var req := params.g.rateReq;
      if IsNearTarget(params.g.dirCur, Pos(ha, dec), targ) {
        req := RATE_MIN;
      }
      var rate := CalcRampRate(params.g.rateCur, req);
      if rate != params.g.rateCur {
        SendRate(rate);
        params := Goto(params.g.(rateCur := rate));
      }
    }

    method CheckCardMove(now: int)
      requires ValidSite(site) && WF(State()) && stat.card
      modifies this
      ensures State() == CheckCard(site, old(State()), now)
    {
      if Hits(hardLims, params.c.dirCur) || (Hits(altLims, params.c.dirCur) && !params.c.handset) {
        StopForLimit();
      } else {
        AdvanceCard(now);
      }
    }

    method AdvanceCard(now: int)
      requires ValidSite(site) && WF(State()) && stat.card && !CardAtLimit(State())
      modifies this
      ensures State() == CheckCard(site, old(State()), now)
    {
      if params.c.dirCur == 0 {
        HaltMove();
        stat := stat.(card := false);
      } else {
        hide RampCard, ProceedCard;
        RampCardMove();
        TurnOrEndCard(now);
      }
    }

    method RampCardMove()
      requires WF(State()) && stat.card
      modifies this`hw, this`params
      ensures State() == RampCard(old(State()))
      ensures params.Card?
    {
      var req := params.c.rateReq;
      if params.c.dirCur != params.c.dirReq {
        req := RATE_MIN;
      }
      if req != params.c.rateCur {
        var rate := CalcRampRate(params.c.rateCur, req);
        SendRate(rate);
        params := Card(params.c.(rateCur := rate));
      }
    }

    method TurnOrEndCard(now: int)
      requires ValidSite(site) && WF(State()) && stat.card
      modifies this
      ensures State() == ProceedCard(site, old(State()), now)
    {
      if params.c.rateCur < RATE_MIN {
        return;
      }
      if params.c.dirReq == 0 {
        CompleteCard(now);
      } else if params.c.dirReq != params.c.dirCur {
        BeginMove(params.c.dirReq, RATE_MIN);
        params := Card(params.c.(dirCur := params.c.dirReq));
      }
    }

    method CompleteCard(now: int)
      requires ValidSite(site) && WF(State()) && stat.card
      modifies this
      ensures State() == FinishCard(site, old(State()), now)
    {
      var catchUp: bv8 := 0;
      if params.c.finalHa != 0 {
        var targHa := params.c.finalHa - TrackTime(site, now, params.c.startTime);
        catchUp := CalcDirection(site.limits, Pos(ha, dec), Pos(targHa, dec)) & DIR_WEST;
      }
      if catchUp != 0 && catchUp == params.c.dirCur {
        return;
      }
      HaltMove();
      if catchUp != 0 {
        params := Card(params.c.(dirCur := catchUp));
        BeginMove(catchUp, RATE_MIN);
        return;
      }
      stat := stat.(card := false);
      if stat.tracking {
        SwitchTracking(true);
      }
    }

    method CheckTrackingMove()
      requires Valid() && !stat.Moving() && stat.tracking
      modifies this
      ensures State() == CheckTracking(site, old(State()))
    {
      hide HitsEither, SteerTracking, ToggleAllStop;
      var t := AsTrack(site, params);
      if HitsEither(hardLims, altLims, t.trackDir | DIR_WEST) {
        SwitchAllStop(true);
        return;
      }
      if Hits(t.trackDir, DIR_HA) {
        t := t.(adjHa := t.adjHa + (t.lastHa - ha - STEPS_PER_TICK));
      }
      if Hits(t.trackDir, DIR_DEC) {
        t := t.(adjDec := t.adjDec + (dec - t.lastDec));
      }
      t := t.(lastHa := ha, lastDec := dec);
      assert t == BookCorrection(AsTrack(site, params), ha, dec);
      SteerCorrection(t);
    }

    method SteerCorrection(booked: TrackParams)
      requires ValidSite(site) && WF(State()) && !stat.Moving() && stat.tracking
      modifies this
      ensures State() == SteerTracking(site, old(State()), booked)
    {
      hide CalcDirection, StartMove, TrackPort, TrackRate, DropSmall;
      params := Track(booked);
      if booked.adjHa == 0 && booked.adjDec == 0 && booked.trackDir == 0 {
        return;
      }
      var t := DropSmall(booked);
      params := Track(t);
      var dir := CalcDirection(site.limits, Pos(ha, dec), Pos(ha + t.adjHa, dec + t.adjDec));
      if dir != t.trackDir {
        StartCorrection(t, dir);
      }
    }

    method StartCorrection(t: TrackParams, dir: bv8)
      requires WF(State()) && !stat.Moving()
      modifies this
      ensures State()
              == StartMove(site, old(State()), TrackPort(dir), TrackRate(dir)).(params := Track(t.(trackDir := dir)))
    {
      if !Hits(dir, DIR_HA) {
        BeginMove(dir | DIR_WEST, RATE_SID);
      } else {
        BeginMove(dir, CalcRate(dir, 1, true));
      }
      params := Track(t.(trackDir := dir));
    }

    // -------------------------------------------------------------- the axes

    /** Environment: the axes make k steps. */
    method AxesMove(k: nat)
      requires Valid() && k <= hw.counter
      modifies this`hw
      ensures Valid() && State() == Step(site, old(State()), StepsEvent(k))
    {
      MoveStepsKeeps(site, State(), k);
      hw := MoveSteps(hw, k);
    }
  }
}
