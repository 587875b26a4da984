/** The motor driver as a state machine on values: one function per entry point of the driver.
    The class MotorDriver implements these functions; MotorInvariants and MotorRuns prove what they keep. */
module MotorMachine {
  import opened CArithmetic
  import opened MotorDefs
  import opened SoftLimits

  // ---------------------------------------------------------------- state

  /** The status byte, without the flag that only announces a change of status. */
  datatype Status = Status(haInit: bool, decInit: bool, tracking: bool, goto: bool, card: bool,
                           errLims: bool, allStop: bool)
  {
    predicate Moving() { goto || card }
    predicate Active() { goto || card || tracking }
  }

  datatype TrackParams = TrackParams(adjHa: int, adjDec: int, lastHa: int, lastDec: int, trackDir: bv8)

  datatype GotoParams = GotoParams(targHa: int, targDec: int, dirCur: bv8, rateReq: nat, rateCur: nat,
                                   cancelled: bool, startTime: int)

  datatype CardParams = CardParams(dirCur: bv8, dirReq: bv8, rateReq: nat, rateCur: nat, handset: bool,
                                   finalHa: int, startTime: int)

  /** The union of the parameters of a goto, a cardinal move and tracking: whatever was stored last. */
  datatype MoveParams = Goto(g: GotoParams) | Card(c: CardParams) | Track(t: TrackParams)

  /** The controller card (step counter, direction and rate last sent) and the axes behind it.
      abrupt counts the directions sent to a moving axis while it was faster than the minimum rate. */
  datatype Hardware = Hardware(counter: nat, dir: bv8, rate: nat, ha: int, dec: int, abrupt: nat)

  datatype World = World(stat: Status, hardLims: bv8, altLims: bv8, ha: int, dec: int,
                         params: MoveParams, last: int, hw: Hardware)

  /** What differs between installations: the limit tables, the kernel's tick rate, and what the bytes
      of a goto or card move read as when they are taken for tracking parameters. */
  datatype Site = Site(limits: Limits, hz: nat, overlay: MoveParams -> TrackParams)

  predicate ValidSite(site: Site) {
    Valid(site.limits) && site.hz > 0
  }

  /** A goto or card flag is only set while the union holds its parameters. */
  predicate WF(w: World) {
    && !(w.stat.goto && w.stat.card)
    && (w.stat.goto ==> w.params.Goto?)
    && (w.stat.card ==> w.params.Card?)
  }

  function WithGoto(w: World, g: GotoParams): World {
    w.(params := Goto(g))
  }

  function WithCard(w: World, c: CardParams): World {
    w.(params := Card(c))
  }

  function AsTrack(site: Site, p: MoveParams): TrackParams {
    if p.Track? then p.t else site.overlay(p)
  }

  // ---------------------------------------------------------------- hardware

  predicate Frozen(dir: bv8) {
    dir == 0 || Hits(dir, POWER_OFF)
  }

  /** The axes make k steps in the direction last sent; the counter counts them down. */
  function MoveSteps(hw: Hardware, k: nat): Hardware {
    if Frozen(hw.dir) || k > hw.counter then hw
    else hw.(counter := hw.counter - k,
             ha := if Hits(hw.dir, DIR_WEST) then hw.ha - k else if Hits(hw.dir, DIR_EAST) then hw.ha + k else hw.ha,
             dec := if Hits(hw.dir, DIR_NORTH) then hw.dec + k
                    else if Hits(hw.dir, DIR_SOUTH) then hw.dec - k else hw.dec)
  }

  function SendDirection(hw: Hardware, dir: bv8, rateBefore: nat): Hardware {
    hw.(dir := dir,
        abrupt := if !Frozen(hw.dir) && rateBefore < RATE_MIN && dir != hw.dir then hw.abrupt + 1 else hw.abrupt)
  }

  // ---------------------------------------------------------------- moving and stopping

  /** The direction the driver believes it is moving in. */
  function DriverDir(site: Site, w: World): bv8
    requires WF(w)
  {
    if w.stat.goto then w.params.g.dirCur
    else if w.stat.card then w.params.c.dirCur
    else if w.stat.tracking then AsTrack(site, w.params).trackDir | DIR_WEST
    else 0
  }

  function CreditHa(dir: bv8, steps: int): int {
    if Hits(dir, DIR_WEST) then -steps else if Hits(dir, DIR_EAST) then steps else 0
  }

  function CreditDec(dir: bv8, steps: int): int {
    if Hits(dir, DIR_NORTH) then steps else if Hits(dir, DIR_SOUTH) then -steps else 0
  }

  /** Dead reckoning: credits the steps counted since the last look; a negative reset keeps the counter. */
  function UpdateCoords(site: Site, w: World, reset: int): World
    requires WF(w)
  {
    var dir, steps := DriverDir(site, w), w.last - w.hw.counter;
    w.(ha := w.ha + CreditHa(dir, steps), dec := w.dec + CreditDec(dir, steps),
       last := if reset >= 0 then reset else w.hw.counter)
  }

  function StartMove(site: Site, w: World, dir: bv8, rate: nat): World
    requires WF(w)
  {
    var u := UpdateCoords(site, w, MAX_STEPS);
    u.(hw := SendDirection(u.hw.(counter := MAX_STEPS, rate := AtLeastMin(rate)), dir, u.hw.rate))
  }

  function StopMove(site: Site, w: World): World
    requires WF(w)
  {
    var u := UpdateCoords(site, w, 0);
    u.(hw := SendDirection(u.hw.(counter := 0), 0, u.hw.rate))
  }

  function SendRate(w: World, rate: nat): World {
    w.(hw := w.hw.(rate := rate))
  }

  /** Stops and leaves every mode. */
  function Abort(site: Site, w: World): World
    requires WF(w)
  {
    var u := StopMove(site, w);
    u.(stat := u.stat.(goto := false, card := false, tracking := false))
  }

  // ---------------------------------------------------------------- entry points

  datatype Reply = Ok | Again | Perm | Inval

  datatype GotoCmd = GotoCmd(targHa: int, targDec: int, speed: int)

  datatype CardCmd = CardCmd(dir: int, speed: int)

  function GotoReply(site: Site, w: World, cmd: GotoCmd): Reply
    requires ValidSite(site)
  {
    var dir := CalcDirectionGoto(site.limits, Pos(w.ha, w.dec), Pos(cmd.targHa, cmd.targDec));
    if w.stat.Moving() || w.stat.allStop then Again
    else if !w.stat.haInit && !w.stat.decInit then Perm
    else if dir == DIR_INVALID || dir == 0 then Inval
    else if HitsEither(w.hardLims, w.altLims, dir) then Inval
    else if CalcRate(dir, cmd.speed, false) == 0 then Inval
    else Ok
  }

  function StartGoto(site: Site, w: World, cmd: GotoCmd, now: int): World
    requires ValidSite(site) && WF(w)
  {
    if GotoReply(site, w, cmd) != Ok then w
    else
      var dir := CalcDirectionGoto(site.limits, Pos(w.ha, w.dec), Pos(cmd.targHa, cmd.targDec));
      var rate := CalcRate(dir, cmd.speed, false);
      var u := StartMove(site, w, dir, rate);
      u.(params := Goto(GotoParams(cmd.targHa, cmd.targDec, dir, rate, AtLeastMin(rate), false, now)),
         stat := u.stat.(goto := true))
  }

  function EndGoto(site: Site, w: World): World
    requires WF(w)
  {
    if !w.stat.goto then w
    else
      var v := WithGoto(w, w.params.g.(rateReq := RATE_MIN, cancelled := true));
      if v.params.g.rateCur < RATE_MIN then v
      else
        var u := StopMove(site, v);
        ResumeTracking(site, u.(stat := u.stat.(goto := false, card := false)))
  }

  /** The byte for a cardinal direction, 0 if there is no such direction. */
  function DirMask(mode: int): bv8 {
    if mode == 1 then DIR_NORTH
    else if mode == 2 then DIR_NORTH | DIR_WEST
    else if mode == 3 then DIR_WEST
    else if mode == 4 then DIR_SOUTH | DIR_WEST
    else if mode == 5 then DIR_SOUTH
    else if mode == 6 then DIR_SOUTH | DIR_EAST
    else if mode == 7 then DIR_EAST
    else if mode == 8 then DIR_NORTH | DIR_EAST
    else 0
  }

  function CardReply(w: World, cmd: CardCmd): Reply {
    var dir := DirMask(cmd.dir);
    if w.stat.Moving() || w.stat.allStop then Again
    else if !w.stat.haInit && !w.stat.decInit then Perm
    else if dir == 0 then Inval
    else if HitsEither(w.hardLims, w.altLims, dir) then Inval
    else if CalcRate(dir, cmd.speed, w.stat.tracking) == 0 then Inval
    else Ok
  }

  function BeginCard(site: Site, w: World, dir: bv8, rate: nat, handset: bool, now: int): World
    requires WF(w)
  {
    var u := StartMove(site, w, dir, rate);
    u.(params := Card(CardParams(dir, dir, rate, AtLeastMin(rate), handset, 0, now)), stat := u.stat.(card := true))
  }

  /** A card move in progress is a busy motor, so the driver's code for redirecting one is never reached. */
  function StartCard(site: Site, w: World, cmd: CardCmd, now: int): World
    requires WF(w)
  {
    if CardReply(w, cmd) != Ok then w
    else
      var dir := DirMask(cmd.dir);
      BeginCard(site, w, dir, CalcRate(dir, cmd.speed, w.stat.tracking), false, now)
  }

  function EndCard(w: World): World
    requires WF(w)
  {
    if !w.stat.card || w.params.c.handset then w
    else WithCard(w, w.params.c.(rateReq := RATE_MIN, dirReq := 0,
                                 finalHa := if w.stat.tracking then w.ha else w.params.c.finalHa))
  }

  function ToggleAllStop(site: Site, w: World, on: bool): World
    requires WF(w)
  {
    if on then
      var u := Abort(site, w);
      u.(stat := u.stat.(allStop := true))
    else w.(stat := w.stat.(allStop := false))
  }

  function ToggleTracking(site: Site, w: World, on: bool): World
    requires WF(w)
  {
    if w.stat.allStop || !w.stat.haInit then w
    else if w.stat.Moving() then w.(stat := w.stat.(tracking := on))
    else if on then
      var u := StartMove(site, w, DIR_WEST, RATE_SID);
      u.(params := Track(TrackParams(0, 0, u.ha, u.dec, 0)), stat := u.stat.(tracking := true))
    else
      var u := StopMove(site, w);
      u.(stat := u.stat.(tracking := false))
  }

  /** After a goto or card move: back to tracking if that is still flagged. */
  function ResumeTracking(site: Site, w: World): World
    requires WF(w)
  {
    if w.stat.tracking then ToggleTracking(site, w, true) else w
  }

  function AdjustTracking(site: Site, w: World, adjHa: int, adjDec: int): World {
    if w.stat.Moving() || !w.stat.tracking then w
    else if Abs(adjHa) < TOLERANCE_HA && Abs(adjDec) < TOLERANCE_DEC then w
    else w.(params := Track(AsTrack(site, w.params).(adjHa := adjHa, adjDec := adjDec)))
  }

  function SetCoord(w: World, ha: int, dec: int): World {
    w.(ha := ha, dec := dec, stat := w.stat.(haInit := true, decInit := true))
  }

  function SetInit(w: World, ha: bool, dec: bool): World {
    w.(stat := w.stat.(haInit := ha, decInit := dec))
  }

  // ---------------------------------------------------------------- handset

  const HS_SOUTH: bv8 := 0x01
  const HS_NORTH: bv8 := 0x02
  const HS_EAST: bv8 := 0x04
  const HS_WEST: bv8 := 0x08
  const HS_DEC: bv8 := 0x03
  const HS_HA: bv8 := 0x0C
  const HS_DIRS: bv8 := 0x0F
  const HS_SLEW: bv8 := 0x40
  const HS_GUIDE: bv8 := 0x80

  function HandsetDir(hs: bv8): bv8 {
    (if Hits(hs, HS_NORTH) then DIR_NORTH else if Hits(hs, HS_SOUTH) then DIR_SOUTH else 0) |
    (if Hits(hs, HS_EAST) then DIR_EAST else if Hits(hs, HS_WEST) then DIR_WEST else 0)
  }

  function HandsetSpeed(hs: bv8): int {
    if Hits(hs, HS_GUIDE) then 1 else if Hits(hs, HS_SLEW) then 3 else 2
  }

  /** Both declination buttons newly pressed together. */
  predicate TogglesStop(before: bv8, after: bv8) {
    before & HS_DEC != HS_DEC && after & HS_DEC == HS_DEC
  }

  predicate TogglesTracking(before: bv8, after: bv8) {
    before & HS_HA != HS_HA && after & HS_HA == HS_HA
  }

  function Handset(site: Site, w: World, before: bv8, after: bv8, now: int): World
    requires WF(w)
  {
    if TogglesStop(before, after) then ToggleAllStop(site, w, !w.stat.allStop)
    else if w.stat.allStop && Hits(after, HS_DIRS) then w
    else if TogglesTracking(before, after) then ToggleTracking(site, w, !w.stat.tracking)
    else if before == after then w
    else if (w.stat.card && !w.params.c.handset) || w.stat.goto then w
    else HandsetMove(site, w, after, now)
  }

  /** Starts, redirects or ends a card move by handset. */
  function HandsetMove(site: Site, w: World, hs: bv8, now: int): World
    requires WF(w) && !w.stat.goto
  {
    var dir := HandsetDir(hs);
    var rate := CalcRate(dir, HandsetSpeed(hs), w.stat.tracking);
    if w.stat.card && !Hits(hs, HS_DIRS) then
      WithCard(w, w.params.c.(dirReq := 0, finalHa := if w.stat.tracking then w.ha else w.params.c.finalHa))
    else if w.stat.card then WithCard(w, w.params.c.(dirReq := dir, rateReq := rate))
    else BeginCard(site, w, dir, rate, true, now)
  }

  // ---------------------------------------------------------------- monitor

  /** Steps the sky has turned since a move started. */
  function TrackTime(site: Site, now: int, start: int): int
    requires site.hz > 0
  {
    CDiv((now - start) * STEPS_PER_SEC, site.hz)
  }

  function FinishGoto(site: Site, w: World): World
    requires WF(w) && w.stat.goto
  {
    var u := StopMove(site, w);
    ResumeTracking(site, u.(stat := u.stat.(goto := false)))
  }

  /** Changes direction, but only at a slow rate. */
  function RedirectGoto(site: Site, w: World, dir: bv8): World
    requires WF(w) && w.stat.goto
  {
    if dir != w.params.g.dirCur && w.params.g.rateCur >= RATE_MIN then
      WithGoto(StartMove(site, w, dir, w.params.g.rateCur), w.params.g.(dirCur := dir))
    else w
  }

  predicate IsNearTarget(dir: bv8, p: Pos, targ: Pos) {
    (Hits(dir, DIR_DEC) && Abs(targ.dec - p.dec) < FLOP_DEC) ||
    (Hits(dir, DIR_HA) && Abs(targ.ha - p.ha) < FLOP_HA)
  }

  function RampGoto(w: World, targ: Pos): World
    requires WF(w) && w.stat.goto
  {
    var req := if IsNearTarget(w.params.g.dirCur, Pos(w.ha, w.dec), targ) then RATE_MIN else w.params.g.rateReq;
    var rate := CalcRampRate(w.params.g.rateCur, req);
    if rate != w.params.g.rateCur then WithGoto(SendRate(w, rate), w.params.g.(rateCur := rate)) else w
  }

  /** The target of a goto; while tracking it moves with the sky. */
  function GotoTarget(site: Site, w: World, now: int): Pos
    requires ValidSite(site) && WF(w) && w.stat.goto
  {
    Pos(if w.stat.tracking then w.params.g.targHa - TrackTime(site, now, w.params.g.startTime) else w.params.g.targHa,
        w.params.g.targDec)
  }

  function CheckGoto(site: Site, w: World, now: int): World
    requires ValidSite(site) && WF(w) && w.stat.goto
  {
    if HitsEither(w.hardLims, w.altLims, w.params.g.dirCur) then Abort(site, w)
    else if w.params.g.cancelled then EaseGoto(site, w)
    else FollowGoto(site, w, now)
  }

  /** A cancelled goto slows down to the minimum rate before it stops. */
  function EaseGoto(site: Site, w: World): World
    requires ValidSite(site) && WF(w) && w.stat.goto
  {
    if w.params.g.rateCur < RATE_MIN then
      var rate := CalcRampRate(w.params.g.rateCur, RATE_MIN);
      WithGoto(SendRate(w, rate), w.params.g.(rateCur := rate))
    else FinishGoto(site, w)
  }

  function FollowGoto(site: Site, w: World, now: int): World
    requires ValidSite(site) && WF(w) && w.stat.goto
  {
    var targ := GotoTarget(site, w, now);
    var dir := CalcDirectionGoto(site.limits, Pos(w.ha, w.dec), targ);
    if dir == 0 && w.params.g.rateCur >= RATE_MIN then FinishGoto(site, w)
    else RampGoto(RedirectGoto(site, w, dir), targ)
  }

  predicate CardAtLimit(w: World)
    requires WF(w) && w.stat.card
  {
    Hits(w.hardLims, w.params.c.dirCur) || (Hits(w.altLims, w.params.c.dirCur) && !w.params.c.handset)
  }

  function RampCard(w: World): World
    requires WF(w) && w.stat.card
  {
    var req := if w.params.c.dirCur != w.params.c.dirReq then RATE_MIN else w.params.c.rateReq;
    if req == w.params.c.rateCur then w
    else
      var rate := CalcRampRate(w.params.c.rateCur, req);
      WithCard(SendRate(w, rate), w.params.c.(rateCur := rate))
  }

  /** A cancelled card move: first catches up with the sky (towards the west only) if tracking is on. */
  function FinishCard(site: Site, w: World, now: int): World
    requires ValidSite(site) && WF(w) && w.stat.card
  {
    var catchUp :=
      if w.params.c.finalHa != 0 then
        CalcDirection(site.limits, Pos(w.ha, w.dec),
                      Pos(w.params.c.finalHa - TrackTime(site, now, w.params.c.startTime), w.dec)) & DIR_WEST
      else 0;
    if catchUp != 0 && catchUp == w.params.c.dirCur then w
    else
      var u := StopMove(site, w);
      if catchUp != 0 then StartMove(site, WithCard(u, u.params.c.(dirCur := catchUp)), catchUp, RATE_MIN)
      else ResumeTracking(site, u.(stat := u.stat.(card := false)))
  }

  function CheckCard(site: Site, w: World, now: int): World
    requires ValidSite(site) && WF(w) && w.stat.card
  {
    if CardAtLimit(w) then Abort(site, w)
    else if w.params.c.dirCur == 0 then
      var u := StopMove(site, w);
      u.(stat := u.stat.(card := false))
    else ProceedCard(site, RampCard(w), now)
  }

  /** Stops and changes of direction wait until the motion is slow. */
  function ProceedCard(site: Site, w: World, now: int): World
    requires ValidSite(site) && WF(w) && w.stat.card
  {
    if w.params.c.rateCur < RATE_MIN then w
    else if w.params.c.dirReq == 0 then FinishCard(site, w, now)
    else if w.params.c.dirReq != w.params.c.dirCur then
      WithCard(StartMove(site, w, w.params.c.dirReq, RATE_MIN), w.params.c.(dirCur := w.params.c.dirReq))
    else w
  }

  /** Books what the last tracking correction achieved; a correction within the tolerance counts as done. */
  function BookCorrection(t: TrackParams, ha: int, dec: int): TrackParams {
    t.(adjHa := if Hits(t.trackDir, DIR_HA) then t.adjHa + (t.lastHa - ha - STEPS_PER_TICK) else t.adjHa,
       adjDec := if Hits(t.trackDir, DIR_DEC) then t.adjDec + (dec - t.lastDec) else t.adjDec,
       lastHa := ha, lastDec := dec)
  }

  function DropSmall(t: TrackParams): TrackParams {
    t.(adjHa := if Abs(t.adjHa) <= TOLERANCE_HA then 0 else t.adjHa,
       adjDec := if Abs(t.adjDec) <= TOLERANCE_DEC then 0 else t.adjDec)
  }

  function CheckTracking(site: Site, w: World): World
    requires ValidSite(site) && WF(w) && !w.stat.Moving() && w.stat.tracking
  {
    var t := AsTrack(site, w.params);
    if HitsEither(w.hardLims, w.altLims, t.trackDir | DIR_WEST) then ToggleAllStop(site, w, true)
    else SteerTracking(site, w, BookCorrection(t, w.ha, w.dec))
  }

  /** Chooses the direction of the correction still open. */
  function SteerTracking(site: Site, w: World, b: TrackParams): World
    requires ValidSite(site) && WF(w) && !w.stat.Moving() && w.stat.tracking
  {
    if b.adjHa == 0 && b.adjDec == 0 && b.trackDir == 0 then w.(params := Track(b))
    else
      var c := DropSmall(b);
      var dir := CalcDirection(site.limits, Pos(w.ha, w.dec), Pos(w.ha + c.adjHa, w.dec + c.adjDec));
      if dir == c.trackDir then w.(params := Track(c))
      else
        var u := StartMove(site, w.(params := Track(c)), TrackPort(dir), TrackRate(dir));
        u.(params := Track(c.(trackDir := dir)))
  }

  /** Tracking itself is the motion west; a correction in hour angle replaces it. */
  function TrackPort(dir: bv8): bv8 {
    if !Hits(dir, DIR_HA) then dir | DIR_WEST else dir
  }

  function TrackRate(dir: bv8): nat {
    if !Hits(dir, DIR_HA) then RATE_SID else CalcRate(dir, 1, true)
  }

  predicate ZeroesDec(w: World, reading: bv8) {
    w.hardLims != reading && Hits(reading, DIR_SOUTH) && (w.dec < DEC_INIT_LIM || !w.stat.decInit)
  }

  predicate ZeroesHa(w: World, reading: bv8) {
    w.hardLims != reading && Hits(reading, DIR_WEST) && (w.ha < HA_INIT_LIM || !w.stat.haInit)
  }

  /** The limit switches: zero points are set at the southern and western switch. */
  function ReadHardLimits(w: World, reading: bv8): World {
    var zd, zh := ZeroesDec(w, reading), ZeroesHa(w, reading);
    w.(dec := if zd then 0 else w.dec, ha := if zh then 0 else w.ha, hardLims := reading,
       stat := w.stat.(decInit := w.stat.decInit || zd, haInit := w.stat.haInit || zh))
  }

  function ReadSoftLimits(site: Site, w: World): World
    requires ValidSite(site)
  {
    var lims := CheckSoftLims(site.limits, w.ha, w.dec);
    w.(altLims := lims, stat := w.stat.(errLims := !(lims == 0 && w.hardLims == 0)))
  }

  /** Everything a monitor tick does before it looks at the motion in progress. */
  function LookAround(site: Site, w: World, reading: bv8): World
    requires ValidSite(site) && WF(w)
  {
    UpdateCoords(site, ReadSoftLimits(site, ReadHardLimits(w, reading)), -1)
  }

  /** One of the flags that a tick announces at once has changed. */
  predicate FlagsChanged(w: World, u: World) {
    w.stat.errLims != u.stat.errLims || w.stat.haInit != u.stat.haInit || w.stat.decInit != u.stat.decInit
  }

  function CheckMotion(site: Site, w: World, now: int): World
    requires ValidSite(site) && WF(w)
  {
    if w.stat.goto then CheckGoto(site, w, now)
    else if w.stat.card then CheckCard(site, w, now)
    else if w.stat.tracking then CheckTracking(site, w)
    else w
  }

  /** A tick that changes a flag does not check the motion: the C code joins the two with "or". */
  function Tick(site: Site, w: World, reading: bv8, now: int): World
    requires ValidSite(site) && WF(w)
  {
    if !w.stat.Active() then w
    else
      var u := LookAround(site, w, reading);
      if FlagsChanged(w, u) then u else CheckMotion(site, u, now)
  }
}
