/** What the commands mean for the telescope: which way the axes go, how fast, and when a command is accepted.
    Directions are those of the compass, bits and rates those of the controller card, in plain numbers. */
module MotorEffects {
  import opened MotorDefs
  import opened SoftLimits
  import opened MotorMachine
  import opened MotorInvariants
  import opened MotorRuns

  // ---------------------------------------------------------------- which way the axes go

  /** A coordinate after k steps up, down, or none. */
  function Shift(x: int, sense: int, k: nat): int {
    if sense > 0 then x + k else if sense < 0 then x - k else x
  }

  /** The steps that the counter holds go this way: east and north are up, west and south down. */
  ghost predicate Goes(hw: Hardware, ha: int, dec: int) {
    forall k: nat :: k <= hw.counter ==>
      MoveSteps(hw, k).ha == Shift(hw.ha, ha, k) && MoveSteps(hw, k).dec == Shift(hw.dec, dec, k)
  }

  /** The bits of the direction port are 1 for west, 2 for east, 4 for north, 8 for south. */
  lemma PortGoes(hw: Hardware)
    ensures hw.dir == 0x1 ==> Goes(hw, -1, 0)
    ensures hw.dir == 0x2 ==> Goes(hw, 1, 0)
    ensures hw.dir == 0x4 ==> Goes(hw, 0, 1)
    ensures hw.dir == 0x8 ==> Goes(hw, 0, -1)
    ensures hw.dir == 0x5 ==> Goes(hw, -1, 1)
    ensures hw.dir == 0x6 ==> Goes(hw, 1, 1)
    ensures hw.dir == 0x9 ==> Goes(hw, -1, -1)
    ensures hw.dir == 0xA ==> Goes(hw, 1, -1)
    ensures hw.dir == 0 ==> Goes(hw, 0, 0)
  {
  }

  // ---------------------------------------------------------------- cardinal moves

  /** The eight directions of a cardinal command, from north by way of west. */
  function CompassHa(mode: int): int {
    if 2 <= mode <= 4 then -1 else if 6 <= mode <= 8 then 1 else 0
  }

  function CompassDec(mode: int): int {
    if mode == 8 || 1 <= mode <= 2 then 1 else if 4 <= mode <= 6 then -1 else 0
  }

  lemma CompassByte(mode: int, hw: Hardware)
    requires 1 <= mode <= 8 && hw.dir == DirMask(mode)
    ensures Goes(hw, CompassHa(mode), CompassDec(mode))
    ensures DirMask(mode) == [0x4, 0x5, 0x1, 0x9, 0x8, 0xA, 0x2, 0x6][mode - 1]
  {
    PortGoes(hw);
    hide Goes;
  }

  /** A limit, hard or soft, forbids this way. */
  predicate Forbids(lims: bv8, ha: int, dec: int) {
    || (ha < 0 && lims & 0x1 != 0) || (ha > 0 && lims & 0x2 != 0)
    || (dec > 0 && lims & 0x4 != 0) || (dec < 0 && lims & 0x8 != 0)
  }

  lemma CompassForbidden(mode: int, hard: bv8, alt: bv8)
    requires 1 <= mode <= 8
    ensures HitsEither(hard, alt, DirMask(mode)) <==> Forbids(hard | alt, CompassHa(mode), CompassDec(mode))
  {
  }

  lemma NoCompass(mode: int)
    ensures DirMask(mode) == 0 <==> !(1 <= mode <= 8)
  {
  }

  lemma KnownSpeeds(dir: bv8, speed: int, trackingOn: bool)
    ensures CalcRate(dir, speed, trackingOn) == 0 <==> !(1 <= speed <= 3)
  {
    hide Hits;
  }

  /** Exactly these cardinal commands are accepted. */
  lemma CardIsAcceptedExactly(w: World, cmd: CardCmd)
    ensures CardReply(w, cmd) == Ok <==>
            && !w.stat.goto && !w.stat.card && !w.stat.allStop && (w.stat.haInit || w.stat.decInit)
            && 1 <= cmd.dir <= 8 && 1 <= cmd.speed <= 3
            && !Forbids(w.hardLims | w.altLims, CompassHa(cmd.dir), CompassDec(cmd.dir))
  {
    hide DirMask, CalcRate, HitsEither, Forbids;
    NoCompass(cmd.dir);
    KnownSpeeds(DirMask(cmd.dir), cmd.speed, w.stat.tracking);
    if 1 <= cmd.dir <= 8 {
      CompassForbidden(cmd.dir, w.hardLims, w.altLims);
    }
  }

  /** After an accepted cardinal command the axes go the way ordered, from where they are. */
  lemma CardMovesAxes(site: Site, w: World, cmd: CardCmd, now: int)
    requires ValidSite(site) && Inv(w) && CardReply(w, cmd) == Ok
    ensures var u := Step(site, w, CardEvent(cmd, now));
            && u.stat.card && u.hw.counter == 0xFFFFFF && u.hw.ha == w.hw.ha && u.hw.dec == w.hw.dec
            && Goes(u.hw, CompassHa(cmd.dir), CompassDec(cmd.dir))
  {
    hide DirMask, CalcRate, HitsEither, Goes, CompassHa, CompassDec, Hits;
    CardIsAcceptedExactly(w, cmd);
    CompassByte(cmd.dir, Step(site, w, CardEvent(cmd, now)).hw);
  }

  // ---------------------------------------------------------------- speeds

  /** The rate is a clock divisor, 57381 that of the sky. While tracking, a move in hour angle has the ordered speed
      over the sky: its clock frequency is that of the ordered rate plus that of the sky to the west, minus it to the
      east, as nearly as a whole number can give it. */
  predicate HasSpeed(rate: nat, ordered: nat, trackingOn: bool, ha: int) {
    if trackingOn && ha < 0 then Abs(rate * (57381 + ordered) - ordered * 57381) < 57381 + ordered
    else if trackingOn && ha > 0 then Abs(rate * (57381 - ordered) - ordered * 57381) < 57381 - ordered
    else rate == ordered
  }

  /** Guide, set and slew. Slewing takes no account of the sky. */
  predicate IsSpeed(rate: nat, speed: int, trackingOn: bool, ha: int) {
    match speed
    case 1 => HasSpeed(rate, 55780, trackingOn, ha)
    case 2 => HasSpeed(rate, 5578, trackingOn, ha)
    case 3 => rate == 200
    case _ => false
  }

  lemma RatesAreSpeeds(dir: bv8, speed: int, trackingOn: bool, ha: int)
    requires 1 <= speed <= 3 && (ha < 0 <==> dir & 0x1 != 0) && (ha > 0 ==> dir & 0x2 != 0)
    requires ha == 0 ==> dir & 0x3 == 0
    ensures IsSpeed(CalcRate(dir, speed, trackingOn), speed, trackingOn, ha)
  {
    assert dir & 0x3 == 0 ==> dir & 0x1 == 0 && dir & 0x2 == 0;
  }

  lemma CompassSides(mode: int)
    requires 1 <= mode <= 8
    ensures CompassHa(mode) < 0 <==> DirMask(mode) & 0x1 != 0
    ensures CompassHa(mode) > 0 ==> DirMask(mode) & 0x2 != 0
    ensures CompassHa(mode) == 0 ==> DirMask(mode) & 0x3 == 0
  {
  }

  /** An accepted cardinal move asks for its speed, and starts no faster than the minimum rate. */
  lemma CardSpeed(site: Site, w: World, cmd: CardCmd, now: int)
    requires ValidSite(site) && Inv(w) && CardReply(w, cmd) == Ok
    ensures var u := Step(site, w, CardEvent(cmd, now));
            && u.stat.card && IsSpeed(u.params.c.rateReq, cmd.speed, w.stat.tracking, CompassHa(cmd.dir))
            && u.hw.rate == u.params.c.rateCur == if u.params.c.rateReq > 28284 then u.params.c.rateReq else 28284
  {
    hide DirMask, CalcRate, HitsEither, CompassHa, IsSpeed, Hits;
    CardIsAcceptedExactly(w, cmd);
    CompassSides(cmd.dir);
    RatesAreSpeeds(DirMask(cmd.dir), cmd.speed, w.stat.tracking, CompassHa(cmd.dir));
  }

  // ---------------------------------------------------------------- the handset

  /** Buttons: 1 south, 2 north, 4 east, 8 west, 0x40 slew, 0x80 guide. */
  function ButtonsHa(hs: bv8): int {
    if hs & 0x4 != 0 then 1 else if hs & 0x8 != 0 then -1 else 0
  }

  function ButtonsDec(hs: bv8): int {
    if hs & 0x2 != 0 then 1 else if hs & 0x1 != 0 then -1 else 0
  }

  function ButtonsSpeed(hs: bv8): int {
    if hs & 0x80 != 0 then 1 else if hs & 0x40 != 0 then 3 else 2
  }

  lemma ButtonsByte(hs: bv8, hw: Hardware)
    requires hw.dir == HandsetDir(hs)
    ensures Goes(hw, ButtonsHa(hs), ButtonsDec(hs))
  {
    PortGoes(hw);
    hide Goes;
  }

  lemma ButtonsSides(hs: bv8)
    ensures ButtonsHa(hs) < 0 <==> HandsetDir(hs) & 0x1 != 0
    ensures ButtonsHa(hs) > 0 ==> HandsetDir(hs) & 0x2 != 0
    ensures ButtonsHa(hs) == 0 ==> HandsetDir(hs) & 0x3 == 0
    ensures HandsetSpeed(hs) == ButtonsSpeed(hs)
  {
  }

  /** Neither pair of opposite buttons is newly pressed together: all-stop and tracking are not switched. */
  predicate OnlyMoves(before: bv8, after: bv8) {
    && before != after
    && !(before & 0x3 != 0x3 && after & 0x3 == 0x3)
    && !(before & 0xC != 0xC && after & 0xC == 0xC)
  }

  lemma OnlyMovesMeans(before: bv8, after: bv8)
    ensures OnlyMoves(before, after)
            <==> before != after && !TogglesStop(before, after) && !TogglesTracking(before, after)
  {
  }

  /** From an idle driver the buttons start a move their way, at their speed. */
  lemma HandsetMovesAxes(site: Site, w: World, before: bv8, after: bv8, now: int)
    requires ValidSite(site) && Inv(w) && !w.stat.goto && !w.stat.card && !w.stat.allStop && OnlyMoves(before, after)
    ensures var u := Step(site, w, HandsetEvent(before, after, now));
            && u.stat.card && u.params.c.handset && u.hw.counter == 0xFFFFFF && SamePlace(w, u)
            && Goes(u.hw, ButtonsHa(after), ButtonsDec(after))
            && IsSpeed(u.params.c.rateReq, ButtonsSpeed(after), w.stat.tracking, ButtonsHa(after))
  {
    hide HandsetDir, HandsetSpeed, CalcRate, Goes, ButtonsHa, ButtonsDec, IsSpeed, Hits, OnlyMoves;
    hide TogglesStop, TogglesTracking;
    OnlyMovesMeans(before, after);
    var u := Step(site, w, HandsetEvent(before, after, now));
    HandsetStarts(site, w, before, after, now);
    ButtonsByte(after, u.hw);
    ButtonsSides(after);
    RatesAreSpeeds(HandsetDir(after), HandsetSpeed(after), w.stat.tracking, ButtonsHa(after));
  }

  lemma HandsetStarts(site: Site, w: World, before: bv8, after: bv8, now: int)
    requires ValidSite(site) && Inv(w) && !w.stat.goto && !w.stat.card && !w.stat.allStop
    requires before != after && !TogglesStop(before, after) && !TogglesTracking(before, after)
    ensures var u := Handset(site, w, before, after, now);
            && WF(u) && u.stat.card && u.params.c.handset && u.hw.counter == 0xFFFFFF && SamePlace(w, u)
            && u.hw.dir == u.params.c.dirCur == HandsetDir(after)
            && u.params.c.rateReq == CalcRate(HandsetDir(after), HandsetSpeed(after), w.stat.tracking)
  {
    hide HandsetDir, HandsetSpeed, CalcRate, Hits, TogglesStop, TogglesTracking;
  }

  /** Newly pressed together, opposite buttons switch all-stop or tracking. */
  lemma HandsetSwitches(site: Site, w: World, before: bv8, after: bv8, now: int)
    requires ValidSite(site) && Inv(w)
    ensures before & 0x3 != 0x3 && after & 0x3 == 0x3 ==>
              Step(site, w, HandsetEvent(before, after, now)).stat.allStop == !w.stat.allStop
    ensures !(before & 0x3 != 0x3 && after & 0x3 == 0x3) && before & 0xC != 0xC && after & 0xC == 0xC &&
            !w.stat.allStop && w.stat.haInit ==>
              Step(site, w, HandsetEvent(before, after, now)).stat.tracking == !w.stat.tracking
  {
    hide StopMove, StartMove, HandsetMove, Abort;
    OnlyMovesMeans(before, after);
  }

  /** During a move by handset, buttons ask for their way and speed, and their release asks for the end. */
  lemma HandsetAsks(site: Site, w: World, before: bv8, after: bv8, now: int, hw: Hardware)
    requires ValidSite(site) && Inv(w) && w.stat.card && w.params.c.handset && !w.stat.allStop
    requires OnlyMoves(before, after)
    ensures var u := Step(site, w, HandsetEvent(before, after, now));
            && u.stat == w.stat && u.hw == w.hw && u.params.Card? && u.params.c.dirCur == w.params.c.dirCur
            && u.params.c.rateCur == w.params.c.rateCur
            && u.params.c.startTime == w.params.c.startTime && u.params.c.handset
            && (after & 0xF == 0 <==> u.params.c.dirReq == 0)
            && (after & 0xF == 0 ==> u.params.c.finalHa == if w.stat.tracking then w.ha else w.params.c.finalHa)
            && (after & 0xF != 0 ==>
                  IsSpeed(u.params.c.rateReq, ButtonsSpeed(after), w.stat.tracking, ButtonsHa(after)))
            && (after & 0xF != 0 && hw.dir == u.params.c.dirReq ==> Goes(hw, ButtonsHa(after), ButtonsDec(after)))
  {
    hide HandsetDir, HandsetSpeed, CalcRate, Goes, ButtonsHa, ButtonsDec, IsSpeed, OnlyMoves;
    hide TogglesStop, TogglesTracking;
    OnlyMovesMeans(before, after);
    ButtonsMeanWay(after);
    if hw.dir == HandsetDir(after) {
      ButtonsByte(after, hw);
    }
    ButtonsSides(after);
    RatesAreSpeeds(HandsetDir(after), HandsetSpeed(after), w.stat.tracking, ButtonsHa(after));
  }

  lemma ButtonsMeanWay(hs: bv8)
    ensures hs & 0xF == 0 <==> HandsetDir(hs) == 0
    ensures Hits(hs, HS_DIRS) <==> hs & 0xF != 0
  {
  }

  // ---------------------------------------------------------------- tracking

  /** Tracking goes west at the rate of the sky; switched off, nothing moves. */
  lemma TrackingGoesWest(site: Site, w: World, on: bool)
    requires ValidSite(site) && Inv(w) && !w.stat.goto && !w.stat.card && !w.stat.allStop && w.stat.haInit
    ensures var u := Step(site, w, TrackingEvent(on));
            && u.stat.tracking == on && SamePlace(w, u)
            && (on ==> u.hw.rate == 57381 && u.hw.counter == 0xFFFFFF && Goes(u.hw, -1, 0))
            && (!on ==> Goes(u.hw, 0, 0))
  {
    hide Goes, Hits, CreditHa, CreditDec;
    PortGoes(Step(site, w, TrackingEvent(on)).hw);
  }

  /** An adjustment moves the axes by its signs where it exceeds the tolerances, at guide speed over the sky in hour
      angle; in declination alone the telescope goes on with the sky. */
  lemma AdjustmentMovesAxes(site: Site, w: World, adjHa: int, adjDec: int)
    requires ValidSite(site) && Inv(w) && !w.stat.goto && !w.stat.card && w.stat.tracking
    requires w.params.Track? && w.params.t.trackDir == 0 && (w.hardLims | w.altLims) & 0x1 == 0
    requires Clear(site.limits, w.ha, w.dec) && InRange(Pos(w.ha + adjHa, w.dec + adjDec))
    requires Abs(adjHa) > 3 || Abs(adjDec) > 2
    requires (Abs(adjHa) > 3 || adjHa == 0) && (Abs(adjDec) > 2 || adjDec == 0)
    ensures var u := CheckTracking(site, AdjustTracking(site, w, adjHa, adjDec));
            && u.stat == w.stat && SamePlace(w, u) && u.hw.counter == 0xFFFFFF
            && Goes(u.hw, if adjHa > 3 then 1 else -1, if adjDec > 2 then 1 else if adjDec < -2 then -1 else 0)
            && (adjHa == 0 ==> u.hw.rate == 57381)
            && (adjHa != 0 ==> IsSpeed(u.hw.rate, 1, true, adjHa))
  {
    hide Goes, StartMove, Clear, IsSpeed, CalcRate;
    var dir := Towards(Pos(w.ha, w.dec), Pos(w.ha + adjHa, w.dec + adjDec));
    var v := w.(params := Track(w.params.t.(adjHa := adjHa, adjDec := adjDec)));
    AdjustedDirection(w, adjHa, adjDec);
    assert AdjustTracking(site, w, adjHa, adjDec) == v;
    TracksTowards(site, v, dir);
    var u := CheckTracking(site, v);
    PortGoes(u.hw);
    RatesAreSpeeds(dir, 1, true, adjHa);
    GuideIsSlow(dir);
  }

  lemma GuideIsSlow(dir: bv8)
    ensures AtLeastMin(CalcRate(dir, 1, true)) == CalcRate(dir, 1, true)
  {
    hide Hits;
  }

  /** The byte of an adjustment, and the one that is sent. */
  lemma AdjustedDirection(w: World, adjHa: int, adjDec: int)
    requires (Abs(adjHa) > 3 || adjHa == 0) && (Abs(adjDec) > 2 || adjDec == 0) && !(adjHa == 0 && adjDec == 0)
    ensures var dir := Towards(Pos(w.ha, w.dec), Pos(w.ha + adjHa, w.dec + adjDec));
            && dir != 0 && dir != DIR_INVALID
            && (adjHa < 0 <==> dir & 0x1 != 0) && (adjHa > 0 ==> dir & 0x2 != 0) && (adjHa == 0 ==> dir & 0x3 == 0)
            && TrackPort(dir) == (if adjHa > 0 then 0x2 else 0x1)
                                 | (if adjDec > 0 then 0x4 else if adjDec < 0 then 0x8 else 0)
            && (Hits(dir, DIR_HA) <==> adjHa != 0)
  {
  }

  lemma TracksTowards(site: Site, w: World, dir: bv8)
    requires ValidSite(site) && Inv(w) && !w.stat.goto && !w.stat.card && w.stat.tracking
    requires w.params.Track? && w.params.t.trackDir == 0 && (w.hardLims | w.altLims) & 0x1 == 0
    requires var t := w.params.t;
             && (Abs(t.adjHa) > 3 || t.adjHa == 0) && (Abs(t.adjDec) > 2 || t.adjDec == 0)
             && !(t.adjHa == 0 && t.adjDec == 0)
             && dir == CalcDirection(site.limits, Pos(w.ha, w.dec), Pos(w.ha + t.adjHa, w.dec + t.adjDec)) != 0
    ensures var u := CheckTracking(site, w);
            && u.stat == w.stat && SamePlace(w, u) && u.hw.counter == 0xFFFFFF
            && u.hw.dir == TrackPort(dir)
            && u.hw.rate == (if Hits(dir, DIR_HA) then AtLeastMin(CalcRate(dir, 1, true)) else 57381)
  {
    hide CalcDirection, TrackPort, CalcRate;
    assert (0 as bv8) | DIR_WEST == DIR_WEST;
  }

  // ---------------------------------------------------------------- gotos

  /** A planned direction moves one axis, and up to the target's coordinate every step brings the telescope one
      step nearer. */
  lemma PlanMovesNearer(t: Limits, p: Pos, targ: Pos, hw: Hardware, k: nat)
    requires Valid(t) && hw.dir == CalcDirectionGoto(t, p, targ) && hw.dir != 0 && hw.dir != DIR_INVALID
    requires k <= hw.counter
    ensures var v := MoveSteps(hw, k);
            var q := Pos(p.ha + v.ha - hw.ha, p.dec + v.dec - hw.dec);
            && (q.ha == p.ha || q.dec == p.dec) && Dist(q, p) == k
            && ((q.ha != p.ha ==> k <= Abs(targ.ha - p.ha)) && (q.dec != p.dec ==> k <= Abs(targ.dec - p.dec)) ==>
                  Dist(q, targ) == Dist(p, targ) - k)
  {
    hide Clear;
  }

  /** So does every accepted goto, from where the driver believed the telescope to be; at its speed, and started no
      faster than the minimum rate. */
  lemma GotoMovesNearer(site: Site, w: World, cmd: GotoCmd, now: int, k: nat)
    requires ValidSite(site) && Inv(w) && GotoReply(site, w, cmd) == Ok && k <= 0xFFFFFF
    ensures var u := Step(site, w, GotoEvent(cmd, now));
            var v := Step(site, u, StepsEvent(k)).hw;
            var p, targ := Pos(w.ha, w.dec), Pos(cmd.targHa, cmd.targDec);
            var q := Pos(p.ha + v.ha - w.hw.ha, p.dec + v.dec - w.hw.dec);
            && u.stat.goto && IsSpeed(u.params.g.rateReq, cmd.speed, false, 0)
            && u.hw.rate == u.params.g.rateCur == (if u.params.g.rateReq > 28284 then u.params.g.rateReq else 28284)
            && (q.ha == p.ha || q.dec == p.dec) && Dist(q, p) == k
            && ((q.ha != p.ha ==> k <= Abs(targ.ha - p.ha)) && (q.dec != p.dec ==> k <= Abs(targ.dec - p.dec)) ==>
                  Dist(q, targ) == Dist(p, targ) - k)
  {
    hide CalcDirectionGoto, CalcRate, HitsEither, IsSpeed, Dist, MoveSteps, Hits;
    var u := Step(site, w, GotoEvent(cmd, now));
    var dir := CalcDirectionGoto(site.limits, Pos(w.ha, w.dec), Pos(cmd.targHa, cmd.targDec));
    KnownSpeeds(dir, cmd.speed, false);
    SpeedAtRest(dir, cmd.speed);
    PlanMovesNearer(site.limits, Pos(w.ha, w.dec), Pos(cmd.targHa, cmd.targDec), u.hw, k);
  }

  lemma SpeedAtRest(dir: bv8, speed: int)
    requires 1 <= speed <= 3
    ensures IsSpeed(CalcRate(dir, speed, false), speed, false, 0)
  {
  }

  /** Exactly these gotos are accepted: between clear places in range that are farther apart than the tolerances, one
      of the corners clear if both axes are open, and no limit in the way first taken. */
  lemma GotoIsAcceptedExactly(site: Site, w: World, cmd: GotoCmd)
    requires ValidSite(site)
    ensures var p, targ := Pos(w.ha, w.dec), Pos(cmd.targHa, cmd.targDec);
            GotoReply(site, w, cmd) == Ok <==>
            && !w.stat.goto && !w.stat.card && !w.stat.allStop && (w.stat.haInit || w.stat.decInit)
            && 1 <= cmd.speed <= 3 && InRange(targ) && Clear(site.limits, p.ha, p.dec)
            && match FirstLeg(site.limits, p, targ) {
               case None => false
               case Dec => !Forbids(w.hardLims | w.altLims, 0, targ.dec - p.dec)
               case Ha => !Forbids(w.hardLims | w.altLims, targ.ha - p.ha, 0)
               }
  {
    hide CalcRate, CalcDirectionGoto, Clear, Forbids, HitsEither, FirstLeg;
    var p, targ := Pos(w.ha, w.dec), Pos(cmd.targHa, cmd.targDec);
    FirstLegIsPlanned(site.limits, p, targ, w.hardLims, w.altLims);
    KnownSpeeds(CalcDirectionGoto(site.limits, p, targ), cmd.speed, false);
  }

  datatype Leg = None | Ha | Dec

  /** Declination first if that is the only open axis, or safe; hour angle else, if that is. */
  function FirstLeg(t: Limits, p: Pos, targ: Pos): Leg
    requires Valid(t)
  {
    var ha, dec := Abs(targ.ha - p.ha) > 3, Abs(targ.dec - p.dec) > 2;
    if dec && (!ha || Clear(t, p.ha, targ.dec)) then Dec
    else if ha && (!dec || Clear(t, targ.ha, p.dec)) then Ha
    else None
  }

  lemma FirstLegIsPlanned(t: Limits, p: Pos, targ: Pos, hard: bv8, alt: bv8)
    requires Valid(t)
    ensures var dir := CalcDirectionGoto(t, p, targ);
            && (!(InRange(targ) && Clear(t, p.ha, p.dec)) ==> dir == DIR_INVALID)
            && (InRange(targ) && Clear(t, p.ha, p.dec) ==>
                  match FirstLeg(t, p, targ) {
                  case None => dir == 0 || dir == DIR_INVALID
                  case Dec => dir != 0 && dir != DIR_INVALID
                              && (HitsEither(hard, alt, dir) <==> Forbids(hard | alt, 0, targ.dec - p.dec))
                  case Ha => dir != 0 && dir != DIR_INVALID
                             && (HitsEither(hard, alt, dir) <==> Forbids(hard | alt, targ.ha - p.ha, 0))
                  })
  {
    hide Clear;
  }

  // ---------------------------------------------------------------- limits

  /** Where a position is not clear, the soft limits forbid exactly the ways on which nothing clear lies ahead: never
      the one to the south. */
  lemma SoftLimitsForbidExactly(t: Limits, ha: int, dec: int)
    requires Valid(t) && Nested(t) && !Clear(t, ha, dec)
    requires t.minDec <= dec < STEPS_N_LIM ==> t.west[dec - t.minDec] <= t.east[dec - t.minDec]
    ensures var lims := CheckSoftLims(t, ha, dec);
            && (lims & 0x1 != 0 <==> forall h :: h < ha ==> !Clear(t, h, dec))
            && (lims & 0x2 != 0 <==> forall h :: h > ha ==> !Clear(t, h, dec))
            && (lims & 0x4 != 0 <==> forall d :: d > dec ==> !Clear(t, ha, d))
            && (lims & 0x8 != 0 <==> forall d :: d < dec ==> !Clear(t, ha, d))
  {
    ClearMeans(t, ha, dec);
    forall h ensures Clear(t, h, dec) <==> dec < STEPS_N_LIM && t.west[dec - t.minDec] <= h <= t.east[dec - t.minDec] {
      ClearMeans(t, h, dec);
    }
    assert Clear(t, ha, t.minDec - 1);
    forall d | d > dec ensures !Clear(t, ha, d) {
      if Clear(t, ha, d) {
        ClearFurtherSouth(t, ha, d, dec);
      }
    }
    LimitBytes(t, ha, dec);
    if dec < STEPS_N_LIM {
      assert Clear(t, t.west[dec - t.minDec], dec) && Clear(t, t.east[dec - t.minDec], dec);
    }
    hide Clear, CheckSoftLims, Nested;
  }

  lemma LimitBytes(t: Limits, ha: int, dec: int)
    requires Valid(t) && dec >= t.minDec
    ensures var lims := CheckSoftLims(t, ha, dec);
            && (lims & 0x1 != 0 <==> dec >= STEPS_N_LIM || ha < t.west[dec - t.minDec])
            && (lims & 0x2 != 0 <==> dec >= STEPS_N_LIM || ha > t.east[dec - t.minDec])
            && (lims & 0x4 != 0 <==> dec >= STEPS_N_LIM || ha < t.west[dec - t.minDec] || ha > t.east[dec - t.minDec])
            && lims & 0x8 == 0
  {
  }

  /** The western switch is newly read, near its place or before the axis is initialised. */
  predicate WesternZero(w: World, reading: bv8) {
    reading != w.hardLims && reading & 0x1 != 0 && (w.ha < 45020 || !w.stat.haInit)
  }

  predicate SouthernZero(w: World, reading: bv8) {
    reading != w.hardLims && reading & 0x8 != 0 && (w.dec < 22416 || !w.stat.decInit)
  }

  /** Then what the driver showed is taken off the coordinate; steps not yet credited stay. */
  lemma WesternSwitchExactly(site: Site, w: World, reading: bv8)
    requires ValidSite(site) && Inv(w)
    ensures var u := LookAround(site, w, reading);
            && Inv(u) && OffsetHa(site, u) == OffsetHa(site, w) - (if WesternZero(w, reading) then w.ha else 0)
            && (u.stat.haInit <==> w.stat.haInit || WesternZero(w, reading))
  {
    hide CheckSoftLims, DirAgrees, CountAgrees, RatesAgree, StopKept;
    LookAroundKeeps(site, w, reading);
  }

  lemma SouthernSwitchExactly(site: Site, w: World, reading: bv8)
    requires ValidSite(site) && Inv(w)
    ensures var u := LookAround(site, w, reading);
            && Inv(u) && OffsetDec(site, u) == OffsetDec(site, w) - (if SouthernZero(w, reading) then w.dec else 0)
            && (u.stat.decInit <==> w.stat.decInit || SouthernZero(w, reading))
  {
    hide CheckSoftLims, DirAgrees, CountAgrees, RatesAgree, StopKept;
    LookAroundKeeps(site, w, reading);
  }

  /** The error flag says whether any limit was found: a switch, or a position at the last look that is not clear. */
  lemma LimitFlagExactly(site: Site, w: World, reading: bv8)
    requires ValidSite(site) && WF(w)
    ensures LookAround(site, w, reading).stat.errLims <==>
            || reading != 0
            || !Clear(site.limits, if WesternZero(w, reading) then 0 else w.ha,
                      if SouthernZero(w, reading) then 0 else w.dec)
  {
    hide CheckSoftLims;
  }
}
