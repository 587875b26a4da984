/** Whole runs of the motor driver: any sequence of entry points, monitor ticks and steps of the axes. */
module MotorRuns {
  import opened MotorDefs
  import opened SoftLimits
  import opened MotorMachine
  import opened MotorInvariants

  datatype Event =
    | GotoEvent(gotoCmd: GotoCmd, now: int)
    | EndGotoEvent
    | CardEvent(cardCmd: CardCmd, now: int)
    | EndCardEvent
    | EndAllEvent
    | AllStopEvent(on: bool)
    | TrackingEvent(on: bool)
    | AdjustEvent(adjHa: int, adjDec: int)
    | SetCoordEvent(ha: int, dec: int)
    | SetInitEvent(haInit: bool, decInit: bool)
    | HandsetEvent(oldHs: bv8, newHs: bv8, now: int)
    | TickEvent(reading: bv8, now: int)
    | StepsEvent(steps: nat)

  /** The driver as loaded, with the card powered off. */
  function Boot(hw: Hardware): World {
    World(Status(false, false, false, false, false, false, false), 0, 0, 0, 0,
          Track(TrackParams(0, 0, 0, 0, 0)), 0, hw)
  }

  function Effect(site: Site, w: World, e: Event): World
    requires ValidSite(site) && Inv(w)
  {
    match e
    case GotoEvent(cmd, now) => StartGoto(site, w, cmd, now)
    case EndGotoEvent => EndGoto(site, w)
    case CardEvent(cmd, now) => StartCard(site, w, cmd, now)
    case EndCardEvent => EndCard(w)
    case EndAllEvent => Abort(site, w)
    case AllStopEvent(on) => ToggleAllStop(site, w, on)
    case TrackingEvent(on) => ToggleTracking(site, w, on)
    case AdjustEvent(a, d) => AdjustTracking(site, w, a, d)
    case SetCoordEvent(ha, dec) => SetCoord(w, ha, dec)
    case SetInitEvent(h, d) => SetInit(w, h, d)
    case HandsetEvent(o, n, now) => Handset(site, w, o, n, now)
    case TickEvent(reading, now) => Tick(site, w, reading, now)
    case StepsEvent(k) => w.(hw := MoveSteps(w.hw, k))
  }

  function Step(site: Site, w: World, e: Event): (u: World)
    requires ValidSite(site) && Inv(w)
    ensures Inv(u)
  {
    StepKeepsInvariant(site, w, e);
    Effect(site, w, e)
  }

  function Run(site: Site, w: World, es: seq<Event>): (u: World)
    requires ValidSite(site) && Inv(w)
    ensures Inv(u)
    decreases |es|
  {
    if es == [] then w else Run(site, Step(site, w, es[0]), es[1..])
  }

  // ---------------------------------------------------------------- what an event may do

  predicate RezeroesHa(w: World, e: Event) {
    e.SetCoordEvent? || (e.TickEvent? && w.stat.Active() && ZeroesHa(w, e.reading))
  }

  predicate RezeroesDec(w: World, e: Event) {
    e.SetCoordEvent? || (e.TickEvent? && w.stat.Active() && ZeroesDec(w, e.reading))
  }

  /** Steps the axes make during a tracking correction to the east. */
  function EastSteps(w: World, e: Event): nat
    requires Inv(w)
  {
    if e.StepsEvent? && e.steps <= w.hw.counter && CorrectingEast(w) then e.steps else 0
  }

  /** Events that may break off a motion at any rate: all-stop, unloading the driver, and a limit. */
  predicate BreaksOff(site: Site, w: World, e: Event)
    requires ValidSite(site) && Inv(w)
  {
    match e
    case EndAllEvent => true
    case AllStopEvent(on) => on
    case HandsetEvent(o, n, _) => TogglesStop(o, n) && !w.stat.allStop
    case TickEvent(reading, _) =>
      LookAroundKeeps(site, w, reading);
      w.stat.Active() && AtLimit(site, LookAround(site, w, reading))
    case _ => false
  }

  /** The step law from which the run theorems follow. */
  predicate Lawful(site: Site, w: World, e: Event, u: World)
    requires ValidSite(site) && Inv(w) && WF(u)
  {
    && (!RezeroesHa(w, e) ==> OffsetHa(site, u) == OffsetHa(site, w) - 2 * EastSteps(w, e))
    && (!RezeroesDec(w, e) ==> OffsetDec(site, u) == OffsetDec(site, w))
    && (!e.StepsEvent? ==> SamePlace(w, u))
    && w.hw.abrupt <= u.hw.abrupt <= w.hw.abrupt + (if BreaksOff(site, w, e) then 1 else 0)
  }

  lemma StepKeepsInvariant(site: Site, w: World, e: Event)
    requires ValidSite(site) && Inv(w)
    ensures Inv(Effect(site, w, e)) && Lawful(site, w, e, Effect(site, w, e))
  {
    if e.TickEvent? || e.StepsEvent? || e.HandsetEvent? {
      InputKeepsInvariant(site, w, e);
    } else if e.GotoEvent? || e.EndGotoEvent? || e.CardEvent? || e.EndCardEvent? {
      MoveCommandKeepsInvariant(site, w, e);
    } else if e.EndAllEvent? || e.AllStopEvent? || e.TrackingEvent? {
      ModeCommandKeepsInvariant(site, w, e);
    } else {
      SettingKeepsInvariant(site, w, e);
    }
  }

  lemma InputKeepsInvariant(site: Site, w: World, e: Event)
    requires ValidSite(site) && Inv(w)
    requires e.TickEvent? || e.StepsEvent? || e.HandsetEvent?
    ensures Inv(Effect(site, w, e)) && Lawful(site, w, e, Effect(site, w, e))
  {
    hide CheckMotion, Handset, LookAround, AtLimit, TogglesStop, TogglesTracking, Hits;
    hide OffsetHa, OffsetDec, ZeroesHa, ZeroesDec;
    match e
    case TickEvent(reading, now) => TickKeeps(site, w, reading, now);
    case StepsEvent(k) => if k <= w.hw.counter { MoveStepsKeeps(site, w, k); }
    case HandsetEvent(o, n, now) => HandsetKeeps(site, w, o, n, now);
  }

  lemma MoveCommandKeepsInvariant(site: Site, w: World, e: Event)
    requires ValidSite(site) && Inv(w)
    requires e.GotoEvent? || e.EndGotoEvent? || e.CardEvent? || e.EndCardEvent?
    ensures Inv(Effect(site, w, e)) && Lawful(site, w, e, Effect(site, w, e))
  {
    match e
    case GotoEvent(cmd, now) => StartGotoKeeps(site, w, cmd, now);
    case EndGotoEvent => EndGotoKeeps(site, w);
    case CardEvent(cmd, now) => StartCardKeeps(site, w, cmd, now);
    case EndCardEvent => EndCardKeeps(site, w);
  }

  lemma ModeCommandKeepsInvariant(site: Site, w: World, e: Event)
    requires ValidSite(site) && Inv(w)
    requires e.EndAllEvent? || e.AllStopEvent? || e.TrackingEvent?
    ensures Inv(Effect(site, w, e)) && Lawful(site, w, e, Effect(site, w, e))
  {
    hide Abort, ToggleAllStop, ToggleTracking, Hits, OffsetHa, OffsetDec, DirAgrees, RatesAgree, CountAgrees, StopKept;
    match e
    case EndAllEvent => AbortKeeps(site, w);
    case AllStopEvent(on) => ToggleAllStopKeeps(site, w, on);
    case TrackingEvent(on) => ToggleTrackingKeeps(site, w, on);
  }

  lemma SettingKeepsInvariant(site: Site, w: World, e: Event)
    requires ValidSite(site) && Inv(w)
    requires e.AdjustEvent? || e.SetCoordEvent? || e.SetInitEvent?
    ensures Inv(Effect(site, w, e)) && Lawful(site, w, e, Effect(site, w, e))
  {
    hide AdjustTracking, SetCoord, SetInit, Hits, OffsetHa, OffsetDec, DirAgrees, RatesAgree, CountAgrees, StopKept;
    match e
    case AdjustEvent(a, d) => AdjustTrackingKeeps(site, w, a, d);
    case SetCoordEvent(ha, dec) => SetCoordKeeps(w, ha, dec);
    case SetInitEvent(h, d) => SetInitKeeps(site, w, h, d);
  }

  lemma SetCoordKeeps(w: World, ha: int, dec: int)
    requires Inv(w)
    ensures Inv(SetCoord(w, ha, dec)) && SetCoord(w, ha, dec).hw == w.hw
  {
  }

  lemma SetInitKeeps(site: Site, w: World, ha: bool, dec: bool)
    requires Inv(w)
    ensures Keeps(site, w, SetInit(w, ha, dec))
  {
  }

  // ---------------------------------------------------------------- dead reckoning

  ghost predicate NeverRezeroesHa(site: Site, w: World, es: seq<Event>)
    requires ValidSite(site) && Inv(w)
    decreases |es|
  {
    es == [] || (!RezeroesHa(w, es[0]) && NeverRezeroesHa(site, Step(site, w, es[0]), es[1..]))
  }

  ghost predicate NeverRezeroesDec(site: Site, w: World, es: seq<Event>)
    requires ValidSite(site) && Inv(w)
    decreases |es|
  {
    es == [] || (!RezeroesDec(w, es[0]) && NeverRezeroesDec(site, Step(site, w, es[0]), es[1..]))
  }

  function AllEastSteps(site: Site, w: World, es: seq<Event>): nat
    requires ValidSite(site) && Inv(w)
    decreases |es|
  {
    if es == [] then 0 else EastSteps(w, es[0]) + AllEastSteps(site, Step(site, w, es[0]), es[1..])
  }

  /** Hour angle: driver coordinate minus mechanical position is constant, but for two steps of drift
      per step made during a tracking correction to the east. */
  lemma {:induction false} DeadReckoningHa(site: Site, w: World, es: seq<Event>)
    requires ValidSite(site) && Inv(w) && NeverRezeroesHa(site, w, es)
    ensures OffsetHa(site, Run(site, w, es)) == OffsetHa(site, w) - 2 * AllEastSteps(site, w, es)
    decreases |es|
  {
    if es != [] {
      StepKeepsInvariant(site, w, es[0]);
      DeadReckoningHa(site, Step(site, w, es[0]), es[1..]);
    }
  }

  /** Declination: driver coordinate minus mechanical position is constant. */
  lemma {:induction false} DeadReckoningDec(site: Site, w: World, es: seq<Event>)
    requires ValidSite(site) && Inv(w) && NeverRezeroesDec(site, w, es)
    ensures OffsetDec(site, Run(site, w, es)) == OffsetDec(site, w)
    decreases |es|
  {
    if es != [] {
      StepKeepsInvariant(site, w, es[0]);
      DeadReckoningDec(site, Step(site, w, es[0]), es[1..]);
    }
  }

  // ---------------------------------------------------------------- slow reversal

  function Breaks(site: Site, w: World, es: seq<Event>): nat
    requires ValidSite(site) && Inv(w)
    decreases |es|
  {
    if es == [] then 0
    else (if BreaksOff(site, w, es[0]) then 1 else 0) + Breaks(site, Step(site, w, es[0]), es[1..])
  }

  /** No direction is sent to an axis moving faster than the minimum rate, except once per
      all-stop, unloading, or tick that finds a limit. */
  lemma {:induction false} SlowReversal(site: Site, w: World, es: seq<Event>)
    requires ValidSite(site) && Inv(w)
    ensures w.hw.abrupt <= Run(site, w, es).hw.abrupt <= w.hw.abrupt + Breaks(site, w, es)
    decreases |es|
  {
    if es != [] {
      StepKeepsInvariant(site, w, es[0]);
      SlowReversal(site, Step(site, w, es[0]), es[1..]);
    }
  }

  // ---------------------------------------------------------------- reachable states

  /** From loading on, in every state: the invariant, hence the all-stop condition. */
  lemma AllStopSafety(site: Site, hw: Hardware, es: seq<Event>)
    requires ValidSite(site) && hw.dir == 0
    ensures Inv(Boot(hw))
    ensures var w := Run(site, Boot(hw), es);
            && !(w.stat.goto && w.stat.card)
            && (w.stat.allStop ==>
                  && w.hw.dir == 0 && !w.stat.goto && !w.stat.tracking
                  && (w.stat.card ==> w.params.Card? && w.params.c.dirCur == 0 && w.params.c.dirReq == 0))
  {
  }

  ghost predicate AllStopThroughout(site: Site, w: World, es: seq<Event>)
    requires ValidSite(site) && Inv(w)
    decreases |es|
  {
    w.stat.allStop && (es == [] || AllStopThroughout(site, Step(site, w, es[0]), es[1..]))
  }

  /** While all-stop is on, whatever is commanded, the telescope does not move. */
  lemma {:induction false} AllStopHolds(site: Site, w: World, es: seq<Event>)
    requires ValidSite(site) && Inv(w) && AllStopThroughout(site, w, es)
    ensures Run(site, w, es).hw.ha == w.hw.ha && Run(site, w, es).hw.dec == w.hw.dec
    decreases |es|
  {
    if es != [] {
      StepKeepsInvariant(site, w, es[0]);
      AllStopHolds(site, Step(site, w, es[0]), es[1..]);
    }
  }

  // ---------------------------------------------------------------- limit response

  /** Flags that a tick may still set before it gets to check the motion. */
  function Rank(w: World): nat {
    (if w.stat.errLims then 0 else 1) + (if w.stat.haInit then 0 else 1) + (if w.stat.decInit then 0 else 1)
  }

  predicate Stopped(w: World) {
    !w.stat.Active() && w.hw.dir == 0
  }

  /** A tick that finds a hard limit in the current direction stops the motion or uses up a flag. */
  lemma TickAtHardLimit(site: Site, w: World, reading: bv8, now: int)
    requires ValidSite(site) && Inv(w) && w.stat.Active()
    requires Hits(reading, DriverDir(site, w))
    ensures var u := Tick(site, w, reading, now);
            && Inv(u)
            && (Stopped(u) || (u.stat.Active() && DriverDir(site, u) == DriverDir(site, w) && Rank(u) < Rank(w)))
  {
    hide LookAround, CheckMotion, OffsetHa, OffsetDec, Hits, HitsEither;
    var u := LookAround(site, w, reading);
    LookAroundKeeps(site, w, reading);
    TickKeeps(site, w, reading, now);
    LookAroundReads(site, w, reading, DriverDir(site, w));
    if !FlagsChanged(w, u) {
      LimitHit(site, u);
      CheckMotionKeeps(site, u, now);
    }
  }

  lemma LookAroundReads(site: Site, w: World, reading: bv8, dir: bv8)
    requires ValidSite(site) && WF(w)
    ensures var u := LookAround(site, w, reading);
            && u.hardLims == reading && (Hits(reading, dir) ==> u.stat.errLims)
            && (w.stat.haInit ==> u.stat.haInit) && (w.stat.decInit ==> u.stat.decInit)
  {
  }

  lemma LimitHit(site: Site, w: World)
    requires ValidSite(site) && Inv(w) && w.stat.Active() && Hits(w.hardLims, DriverDir(site, w))
    ensures AtLimit(site, w)
  {
    LimitBits(w.hardLims, w.altLims, DriverDir(site, w));
    hide Hits, HitsEither;
  }

  lemma LimitBits(hard: bv8, alt: bv8, dir: bv8)
    ensures Hits(hard, dir) ==> HitsEither(hard, alt, dir)
  {
  }

  function Ticks(es: seq<Event>): nat {
    if es == [] then 0 else (if es[0].TickEvent? then 1 else 0) + Ticks(es[1..])
  }

  /** Ticks that see a hard limit in the current direction, and between them steps of the axes and commands of all
      kinds that stop the motor, or leave it in motion and no flag cleared. */
  predicate Persists(site: Site, w: World, e: Event)
    requires ValidSite(site) && Inv(w)
  {
    if e.TickEvent? then Hits(e.reading, DriverDir(site, w))
    else var u := Step(site, w, e); Stopped(u) || (u.stat.Active() && Rank(u) <= Rank(w))
  }

  /** Steps of the axes always do. */
  lemma StepsPersist(site: Site, w: World, k: nat)
    requires ValidSite(site) && Inv(w) && w.stat.Active()
    ensures Persists(site, w, StepsEvent(k))
  {
  }

  /** Until the motor is stopped. */
  ghost predicate LimitPersists(site: Site, w: World, es: seq<Event>)
    requires ValidSite(site) && Inv(w)
    decreases |es|
  {
    es == [] || Stopped(w) || (Persists(site, w, es[0]) && LimitPersists(site, Step(site, w, es[0]), es[1..]))
  }

  lemma LimitStep(site: Site, w: World, e: Event)
    requires ValidSite(site) && Inv(w) && w.stat.Active() && Persists(site, w, e)
    ensures var u := Step(site, w, e);
            Stopped(u) || (u.stat.Active() && Rank(u) + (if e.TickEvent? then 1 else 0) <= Rank(w))
  {
    if e.TickEvent? {
      TickAtHardLimit(site, w, e.reading, e.now);
    }
  }

  /** More ticks than unset flags: by then the motor has been stopped. */
  lemma {:induction false} LimitResponse(site: Site, w: World, es: seq<Event>) returns (k: nat)
    requires ValidSite(site) && Inv(w) && w.stat.Active()
    requires LimitPersists(site, w, es) && Ticks(es) > Rank(w)
    ensures k <= |es| && Stopped(Run(site, w, es[..k])) && Ticks(es[..k]) <= Rank(w) + 1
    decreases |es|
  {
    assert !Stopped(w);
    hide Persists, Rank, Stopped;
    LimitStep(site, w, es[0]);
    var u := Step(site, w, es[0]);
    var rest := 0;
    if Stopped(u) {
      assert es[1..][..0] == [];
      assert Run(site, u, []) == u;
    } else {
      rest := LimitResponse(site, u, es[1..]);
    }
    k := rest + 1;
    assert es[..k][0] == es[0] && es[..k][1..] == es[1..][..rest];
  }

  lemma RankAtMostThree(w: World)
    ensures Rank(w) <= 3
  {
  }

  /** A hard limit that stays asserted in the current direction has stopped the motor by the fourth tick. */
  lemma FourTicksStop(site: Site, w: World, es: seq<Event>) returns (k: nat)
    requires ValidSite(site) && Inv(w) && w.stat.Active()
    requires LimitPersists(site, w, es) && Ticks(es) >= 4
    ensures k <= |es| && Stopped(Run(site, w, es[..k])) && Ticks(es[..k]) <= 4
  {
    RankAtMostThree(w);
    hide Rank, Stopped;
    k := LimitResponse(site, w, es);
  }

  /** Ticks that all see the limit, and steps; no commands. */
  predicate LimitAsserted(dir: bv8, es: seq<Event>) {
    forall e :: e in es ==> e.StepsEvent? || (e.TickEvent? && Hits(e.reading, dir))
  }

  lemma {:induction false} AssertedPersists(site: Site, w: World, es: seq<Event>)
    requires ValidSite(site) && Inv(w) && w.stat.Active() && LimitAsserted(DriverDir(site, w), es)
    ensures LimitPersists(site, w, es)
    decreases |es|
  {
    if es != [] {
      hide Hits, Rank;
      var e, u := es[0], Step(site, w, es[0]);
      assert e in es;
      if e.TickEvent? {
        TickAtHardLimit(site, w, e.reading, e.now);
      } else {
        StepsPersist(site, w, e.steps);
      }
      if u.stat.Active() {
        AssertedPersists(site, u, es[1..]);
      } else {
        assert Stopped(u);
        assert LimitPersists(site, u, es[1..]);
      }
    }
  }

  lemma {:induction false} StoppedStaysStopped(site: Site, w: World, dir: bv8, es: seq<Event>)
    requires ValidSite(site) && Inv(w) && Stopped(w) && LimitAsserted(dir, es)
    ensures Stopped(Run(site, w, es))
    decreases |es|
  {
    if es != [] {
      assert es[0] in es;
      StoppedStaysStopped(site, Step(site, w, es[0]), dir, es[1..]);
    }
  }

  lemma {:induction false} RunSplits(site: Site, w: World, front: seq<Event>, bs: seq<Event>)
    requires ValidSite(site) && Inv(w)
    ensures Run(site, w, front + bs) == Run(site, Run(site, w, front), bs)
    decreases |front|
  {
    if front == [] {
      assert front + bs == bs;
    } else {
      assert (front + bs)[0] == front[0] && (front + bs)[1..] == front[1..] + bs;
      RunSplits(site, Step(site, w, front[0]), front[1..], bs);
    }
  }

  lemma RestAsserted(dir: bv8, es: seq<Event>, k: nat)
    requires k <= |es| && LimitAsserted(dir, es)
    ensures LimitAsserted(dir, es[k..])
  {
  }

  /** Without commands it is stopped by the fourth tick, and for good. */
  lemma FourTicksAlone(site: Site, w: World, es: seq<Event>)
    requires ValidSite(site) && Inv(w) && w.stat.Active() && LimitAsserted(DriverDir(site, w), es) && Ticks(es) >= 4
    ensures Stopped(Run(site, w, es))
  {
    hide Stopped, LimitPersists, Ticks, LimitAsserted, Run, Effect, Hits;
    AssertedPersists(site, w, es);
    var k := FourTicksStop(site, w, es);
    RunSplits(site, w, es[..k], es[k..]);
    assert es == es[..k] + es[k..];
    RestAsserted(DriverDir(site, w), es, k);
    StoppedStaysStopped(site, Run(site, w, es[..k]), DriverDir(site, w), es[k..]);
  }

  // ---------------------------------------------------------------- three ticks are not enough

  /** A goto to the north from the middle of the range, after which the operator declares both axes uninitialised. */
  const NORTHWARD: GotoCmd := GotoCmd(100000, 200000, 3)
  const SET_OUT: seq<Event> := [SetCoordEvent(100000, 100000), GotoEvent(NORTHWARD, 0), SetInitEvent(false, false)]

  const NORTH_SOUTH: bv8 := DIR_NORTH | DIR_SOUTH

  /** They all read the northern limit switch, and then also the southern and the western one. */
  const THREE_TICKS: seq<Event> :=
    [TickEvent(DIR_NORTH, 0), TickEvent(NORTH_SOUTH, 0), TickEvent(NORTH_SOUTH | DIR_WEST, 0)]

  /** The state that this reaches from loading. */
  function UnderWay(hw: Hardware): World {
    World(Status(false, false, false, true, false, false, false), 0, 0, 100000, 100000,
          Goto(GotoParams(100000, 200000, DIR_NORTH, RATE_SLEW, RATE_MIN, false, 0)), MAX_STEPS,
          hw.(counter := MAX_STEPS, rate := RATE_MIN, dir := DIR_NORTH))
  }

  lemma RunOfThree(site: Site, w: World, a: Event, b: Event, c: Event)
    requires ValidSite(site) && Inv(w)
    ensures Run(site, w, [a, b, c]) == Step(site, Step(site, Step(site, w, a), b), c)
    ensures Persists(site, w, a) && Persists(site, Step(site, w, a), b) &&
            Persists(site, Step(site, Step(site, w, a), b), c) ==>
              LimitPersists(site, w, [a, b, c])
  {
    hide Persists, Stopped, Inv, Effect;
    var w1, w2 := Step(site, w, a), Step(site, Step(site, w, a), b);
    assert [a, b, c][1..] == [b, c] && [b, c][1..] == [c] && [c][1..] == [];
    assert Run(site, w2, [c]) == Run(site, Step(site, w2, c), []);
    assert Run(site, w1, [b, c]) == Run(site, w2, [c]);
    assert LimitPersists(site, Step(site, w2, c), []);
    assert Persists(site, w2, c) ==> LimitPersists(site, w2, [c]);
    assert Persists(site, w2, c) && Persists(site, w1, b) ==> LimitPersists(site, w1, [b, c]);
  }

  lemma PlannedNorth(site: Site)
    requires ValidSite(site) && site.limits.minDec > 200000
    ensures CalcDirectionGoto(site.limits, Pos(100000, 100000), Pos(100000, 200000)) == DIR_NORTH
  {
  }

  lemma SetsOut(site: Site, hw: Hardware)
    requires ValidSite(site) && site.limits.minDec > 200000 && hw.dir == 0
    ensures Inv(Boot(hw)) && Run(site, Boot(hw), SET_OUT) == UnderWay(hw)
  {
    RunOfThree(site, Boot(hw), SetCoordEvent(100000, 100000), GotoEvent(NORTHWARD, 0), SetInitEvent(false, false));
    hide Run;
    var w1 := Step(site, Boot(hw), SetCoordEvent(100000, 100000));
    PlannedNorth(site);
    hide CalcDirectionGoto, Inv;
    assert GotoReply(site, w1, NORTHWARD) == Ok;
    var w2 := Step(site, w1, GotoEvent(NORTHWARD, 0));
    assert w2.params == UnderWay(hw).params && w2.hw == UnderWay(hw).hw;
  }

  lemma TicksOnlyAnnounce(site: Site, hw: Hardware)
    requires ValidSite(site) && site.limits.minDec > 200000 && Inv(UnderWay(hw))
    ensures var u := Run(site, UnderWay(hw), THREE_TICKS); u.stat.goto && u.hw.dir == DIR_NORTH
    ensures LimitPersists(site, UnderWay(hw), THREE_TICKS)
  {
    var w := UnderWay(hw);
    var a, b, c := TickEvent(DIR_NORTH, 0), TickEvent(NORTH_SOUTH, 0), TickEvent(NORTH_SOUTH | DIR_WEST, 0);
    RunOfThree(site, w, a, b, c);
    hide Run, LimitPersists;
    var w1 := Step(site, w, a);
    assert w1 == w.(hardLims := DIR_NORTH, stat := w.stat.(errLims := true));
    var w2 := Step(site, w1, b);
    assert w2 == w1.(hardLims := NORTH_SOUTH, stat := w1.stat.(decInit := true), dec := 0);
    var w3 := Step(site, w2, c);
    assert w3.stat.goto && w3.hw.dir == DIR_NORTH;
    assert Persists(site, w, a) && Persists(site, w1, b) && Persists(site, w2, c);
  }

  /** Three ticks may not do: in a state that the driver reaches, each of them announces another flag instead of
      checking the motion. */
  lemma ThreeTicksMayNotStop(site: Site, hw: Hardware)
    requires ValidSite(site) && site.limits.minDec > 200000 && hw.dir == 0
    ensures Inv(Boot(hw))
    ensures var w := Run(site, Boot(hw), SET_OUT);
            && w.stat.Active() && LimitPersists(site, w, THREE_TICKS)
            && Run(site, w, THREE_TICKS).stat.goto && Run(site, w, THREE_TICKS).hw.dir == DIR_NORTH
  {
    SetsOut(site, hw);
    TicksOnlyAnnounce(site, hw);
    hide Run, LimitPersists, Inv;
  }

  // ---------------------------------------------------------------- the drift to the east is real

  /** Coordinates are set, tracking is switched on and an adjustment to the east is ordered. */
  const SET_EAST: seq<Event> := [SetCoordEvent(1000, 0), TrackingEvent(true), AdjustEvent(100, 0)]

  /** The monitor starts the correction, and the axes make five steps. */
  const FIVE_EAST: seq<Event> := [TickEvent(0, 0), StepsEvent(5)]

  function AboutToCorrect(hw: Hardware): World {
    World(Status(true, true, true, false, false, false, false), 0, 0, 1000, 0,
          Track(TrackParams(100, 0, 1000, 0, 0)), MAX_STEPS,
          hw.(counter := MAX_STEPS, rate := RATE_SID, dir := DIR_WEST))
  }

  lemma BootKeepsInvariant(hw: Hardware)
    requires hw.dir == 0
    ensures Inv(Boot(hw))
  {
  }

  lemma StartsTracking(site: Site, hw: Hardware)
    requires ValidSite(site) && hw.dir == 0
    ensures ToggleTracking(site, SetCoord(Boot(hw), 1000, 0), true)
            == AboutToCorrect(hw).(params := Track(TrackParams(0, 0, 1000, 0, 0)))
  {
  }

  lemma OrdersEast(site: Site, hw: Hardware)
    requires ValidSite(site) && hw.dir == 0
    ensures Inv(Boot(hw)) && Run(site, Boot(hw), SET_EAST) == AboutToCorrect(hw)
  {
    hide Run, Inv, Persists, LimitPersists, ToggleTracking;
    BootKeepsInvariant(hw);
    RunOfThree(site, Boot(hw), SetCoordEvent(1000, 0), TrackingEvent(true), AdjustEvent(100, 0));
    StartsTracking(site, hw);
  }

  lemma CorrectsEast(site: Site, hw: Hardware)
    requires ValidSite(site) && site.limits.minDec > 0 && Inv(AboutToCorrect(hw))
    ensures CorrectingEast(Step(site, AboutToCorrect(hw), TickEvent(0, 0)))
    ensures Step(site, AboutToCorrect(hw), TickEvent(0, 0)).hw.counter == MAX_STEPS
  {
    var w := AboutToCorrect(hw);
    assert LookAround(site, w, 0) == w;
    hide Inv, LookAround;
    assert Step(site, w, TickEvent(0, 0)).hw.dir == DIR_EAST;
  }

  lemma RunOfTwo(site: Site, w: World, a: Event, b: Event)
    requires ValidSite(site) && Inv(w)
    ensures Run(site, w, [a, b]) == Step(site, Step(site, w, a), b)
  {
    hide Inv, Effect;
    var w1 := Step(site, w, a);
    assert [a, b][1..] == [b] && [b][1..] == [];
    assert Run(site, w1, [b]) == Run(site, Step(site, w1, b), []);
  }

  /** In a state that the driver reaches, a tick and five steps of a correction put it ten steps off. */
  lemma EastCorrectionDrifts(site: Site, hw: Hardware)
    requires ValidSite(site) && site.limits.minDec > 0 && hw.dir == 0
    ensures Inv(Boot(hw))
    ensures var w := Run(site, Boot(hw), SET_EAST);
            OffsetHa(site, Run(site, w, FIVE_EAST)) == OffsetHa(site, w) - 10
  {
    OrdersEast(site, hw);
    CorrectsEast(site, hw);
    var w := AboutToCorrect(hw);
    var u := Step(site, w, TickEvent(0, 0));
    RunOfTwo(site, w, TickEvent(0, 0), StepsEvent(5));
    StepKeepsInvariant(site, w, TickEvent(0, 0));
    StepKeepsInvariant(site, u, StepsEvent(5));
    hide Run, Inv, Effect, CorrectingEast, OffsetHa, OffsetDec, BreaksOff;
    assert !RezeroesHa(w, TickEvent(0, 0));
  }

  // ---------------------------------------------------------------- accepted gotos

  /** An idle, initialised driver clear of all limits accepts every goto to a clear target it is not already at. */
  lemma ClearGotoIsAccepted(site: Site, w: World, cmd: GotoCmd)
    requires ValidSite(site) && Nested(site.limits) && Inv(w)
    requires !w.stat.Moving() && !w.stat.allStop && (w.stat.haInit || w.stat.decInit)
    requires w.hardLims == 0 && w.altLims == 0 && 1 <= cmd.speed <= 3
    requires InRange(Pos(cmd.targHa, cmd.targDec)) && Clear(site.limits, cmd.targHa, cmd.targDec)
    requires Clear(site.limits, w.ha, w.dec)
    requires !(HaDone(Pos(w.ha, w.dec), Pos(cmd.targHa, cmd.targDec))
               && DecDone(Pos(w.ha, w.dec), Pos(cmd.targHa, cmd.targDec)))
    ensures GotoReply(site, w, cmd) == Ok
    ensures forall now :: StartGoto(site, w, cmd, now).stat.goto
  {
    PlannerNeverStuck(site.limits, Pos(w.ha, w.dec), Pos(cmd.targHa, cmd.targDec));
  }

  // ---------------------------------------------------------------- cancelled gotos

  /** A tick that announces no flag, and so gets to check the motion. */
  predicate ReachesCheck(site: Site, w: World, e: Event)
    requires ValidSite(site) && Inv(w)
  {
    e.TickEvent? && w.stat.Active() && !FlagsChanged(w, LookAround(site, w, e.reading))
  }

  function Checks(site: Site, w: World, es: seq<Event>): nat
    requires ValidSite(site) && Inv(w)
    decreases |es|
  {
    if es == [] then 0
    else (if ReachesCheck(site, w, es[0]) then 1 else 0) + Checks(site, Step(site, w, es[0]), es[1..])
  }

  predicate Cancelled(w: World)
    requires WF(w)
  {
    w.stat.goto && w.params.g.cancelled
  }

  /** Nothing brings a cancelled goto back; a check ends it or slows it down, all else leaves its rate or ends it. */
  lemma CancelledStep(site: Site, w: World, e: Event)
    requires ValidSite(site) && Inv(w) && Cancelled(w)
    ensures var u := Step(site, w, e);
            !u.stat.Moving() ||
            (Cancelled(u) &&
             if ReachesCheck(site, w, e)
             then w.params.g.rateCur < RATE_MIN && u.params.g.rateCur == CalcRampRate(w.params.g.rateCur, RATE_MIN)
             else u.params.g.rateCur == w.params.g.rateCur)
  {
    if e.TickEvent? {
      CancelledTick(site, w, e.reading, e.now);
    } else {
      CancelledCommand(site, w, e);
    }
    hide Effect, Inv, CalcRampRate, LookAround;
  }

  lemma CancelledTick(site: Site, w: World, reading: bv8, now: int)
    requires ValidSite(site) && Inv(w) && Cancelled(w)
    ensures var u := Tick(site, w, reading, now);
            WF(u) && (!u.stat.Moving() ||
            (Cancelled(u) &&
             if ReachesCheck(site, w, TickEvent(reading, now))
             then w.params.g.rateCur < RATE_MIN && u.params.g.rateCur == CalcRampRate(w.params.g.rateCur, RATE_MIN)
             else u.params.g.rateCur == w.params.g.rateCur))
  {
    var v := LookAround(site, w, reading);
    LookAroundKeeps(site, w, reading);
    TickKeeps(site, w, reading, now);
    if AtLimit(site, v) {
      AbortKeeps(site, v);
    } else if v.params.g.rateCur >= RATE_MIN {
      FinishGotoKeeps(site, v);
    }
    hide LookAround, HitsEither, Abort, FinishGoto, CalcRampRate;
  }

  lemma MarkedCancelled(w: World)
    requires Inv(w) && w.stat.goto && w.params.g.rateCur >= RATE_MIN
    ensures var v := WithGoto(w, w.params.g.(rateReq := RATE_MIN, cancelled := true));
            Inv(v) && Slow(v)
  {
  }

  lemma CancelledCommand(site: Site, w: World, e: Event)
    requires ValidSite(site) && Inv(w) && Cancelled(w) && !e.TickEvent?
    ensures var u := Effect(site, w, e);
            WF(u) && (!u.stat.Moving() || (Cancelled(u) && u.params.g.rateCur == w.params.g.rateCur))
  {
    hide CalcDirectionGoto, StopMove, CalcRate, HandsetMove, BeginCard, DirMask, Hits, MoveSteps, ResumeTracking;
    hide OffsetHa, OffsetDec, RateAgrees, CountAgrees, StopKept, TogglesStop, TogglesTracking;
    if e.EndGotoEvent? && w.params.g.rateCur >= RATE_MIN {
      MarkedCancelled(w);
      StopAndResumeKeeps(site, WithGoto(w, w.params.g.(rateReq := RATE_MIN, cancelled := true)));
    }
  }

  /** A cancelled goto that reaches the minimum rate in n ramping steps is over with its n + 1st check at the latest,
      whatever else happens between the checks. */
  lemma {:induction false} CancelledGotoStopsIn(site: Site, w: World, es: seq<Event>, n: nat) returns (k: nat)
    requires ValidSite(site) && Inv(w) && Cancelled(w)
    requires Ramp(w.params.g.rateCur, RATE_MIN, n) >= RATE_MIN && Checks(site, w, es) > n
    ensures k <= |es| && !Run(site, w, es[..k]).stat.Moving() && Checks(site, w, es[..k]) <= n + 1
    decreases |es|
  {
    CancelledStep(site, w, es[0]);
    hide CalcRampRate, Inv, Effect, ReachesCheck, Run;
    var u, rest := Step(site, w, es[0]), 0;
    if !u.stat.Moving() {
      assert es[1..][..0] == [];
      NothingRun(site, u);
    } else {
      rest := CancelledGotoStopsIn(site, u, es[1..], if ReachesCheck(site, w, es[0]) then n - 1 else n);
    }
    k := rest + 1;
    FirstAndRest(site, w, es, rest);
  }

  lemma NothingRun(site: Site, w: World)
    requires ValidSite(site) && Inv(w)
    ensures Run(site, w, []) == w && Checks(site, w, []) == 0
  {
  }

  lemma FirstAndRest(site: Site, w: World, es: seq<Event>, k: nat)
    requires ValidSite(site) && Inv(w) && k < |es|
    ensures Run(site, w, es[..k + 1]) == Run(site, Step(site, w, es[0]), es[1..][..k])
    ensures Checks(site, w, es[..k + 1])
            == (if ReachesCheck(site, w, es[0]) then 1 else 0) + Checks(site, Step(site, w, es[0]), es[1..][..k])
  {
    hide Inv, Effect, ReachesCheck;
    assert es[..k + 1][0] == es[0] && es[..k + 1][1..] == es[1..][..k];
  }

  /** From every goto in every reachable state, after it is ended no move is under way by the nineteenth check. */
  lemma CancelledGotoStops(site: Site, w: World, es: seq<Event>) returns (k: nat)
    requires ValidSite(site) && Inv(w) && w.stat.goto
    requires Checks(site, Step(site, w, EndGotoEvent), es) >= 19
    ensures k <= |es| && !Run(site, Step(site, w, EndGotoEvent), es[..k]).stat.Moving()
    ensures Checks(site, Step(site, w, EndGotoEvent), es[..k]) <= 19
  {
    hide Ramp, Checks, Run, EndGoto, CalcRampRate;
    var u := Step(site, w, EndGotoEvent);
    EndedGoto(site, w);
    if w.params.g.rateCur < RATE_MIN {
      RampArrives(w.params.g.rateCur, RATE_MIN, 18);
      k := CancelledGotoStopsIn(site, u, es, 18);
    } else {
      k := 0;
      NothingRun(site, u);
    }
  }

  lemma EndedGoto(site: Site, w: World)
    requires ValidSite(site) && Inv(w) && w.stat.goto
    ensures var u := EndGoto(site, w);
            && WF(u) && w.params.g.rateCur >= RATE_SLEW
            && (w.params.g.rateCur < RATE_MIN ==> Cancelled(u) && u.params.g.rateCur == w.params.g.rateCur)
            && (w.params.g.rateCur >= RATE_MIN ==> !u.stat.Moving())
  {
    hide OffsetHa, OffsetDec, Hits;
    if w.params.g.rateCur >= RATE_MIN {
      MarkedCancelled(w);
      StopAndResumeKeeps(site, WithGoto(w, w.params.g.(rateReq := RATE_MIN, cancelled := true)));
    }
  }
}
