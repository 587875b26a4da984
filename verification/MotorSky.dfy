/** Keeping up with the sky: where a target is while tracking, where a finished move is left, and what becomes of
    tracking corrections. The sky moves 31 steps a second towards falling hour angles; hz kernel ticks are a second. */
module MotorSky {
  import opened CArithmetic
  import opened MotorDefs
  import opened SoftLimits
  import opened MotorMachine
  import opened MotorInvariants
  import opened MotorRuns

  // ---------------------------------------------------------------- the target of a goto

  /** n is the number of whole steps the sky has made since start; before it, the number still to be made. */
  predicate SkySteps(hz: nat, now: int, start: int, n: int) {
    if now >= start then hz * n <= 31 * (now - start) < hz * (n + 1)
    else hz * (n - 1) < 31 * (now - start) <= hz * n
  }

  lemma QuotientBounds(x: nat, d: nat)
    requires d > 0
    ensures d * (x / d) <= x < d * (x / d + 1)
  {
    assert x == d * (x / d) + x % d;
    assert d * (x / d + 1) == d * (x / d) + d;
  }

  lemma TrackTimeIsSkySteps(site: Site, now: int, start: int)
    requires site.hz > 0
    ensures SkySteps(site.hz, now, start, TrackTime(site, now, start))
  {
    var x := (now - start) * 31;
    if now >= start {
      QuotientBounds(x, site.hz);
    } else {
      QuotientBounds(-x, site.hz);
      var q := -x / site.hz;
      assert TrackTime(site, now, start) == -q;
      assert site.hz * (-q) == -(site.hz * q) && site.hz * (-q - 1) == -(site.hz * (q + 1));
    }
  }

  /** The target of a goto: at rest where it was ordered, while tracking as many steps west of it as the sky has made
      since the goto began. */
  lemma TargetFollowsSky(site: Site, w: World, now: int)
    requires ValidSite(site) && WF(w) && w.stat.goto
    ensures GotoTarget(site, w, now).dec == w.params.g.targDec
    ensures !w.stat.tracking ==> GotoTarget(site, w, now).ha == w.params.g.targHa
    ensures w.stat.tracking ==>
              SkySteps(site.hz, now, w.params.g.startTime, w.params.g.targHa - GotoTarget(site, w, now).ha)
  {
    hide SkySteps, TrackTime;
    TrackTimeIsSkySteps(site, now, w.params.g.startTime);
  }

  /** A position is the ordered one, to three steps in hour angle and two in declination; while tracking, the ordered
      one as the sky has taken it along. */
  predicate IsWhereOrdered(hz: nat, trackingOn: bool, targ: Pos, start: int, now: int, p: Pos) {
    && -2 <= targ.dec - p.dec <= 2
    && (!trackingOn ==> -3 <= targ.ha - p.ha <= 3)
    && (trackingOn && now >= start ==>
          hz * (targ.ha - p.ha - 3) <= 31 * (now - start) < hz * (targ.ha - p.ha + 4))
  }

  /** What a goto was ordered to. */
  function Ordered(g: GotoParams): Pos {
    Pos(g.targHa, g.targDec)
  }

  lemma DoneIsWhereOrdered(site: Site, w: World, now: int, p: Pos)
    requires ValidSite(site) && WF(w) && w.stat.goto
    requires HaDone(p, GotoTarget(site, w, now)) && DecDone(p, GotoTarget(site, w, now))
    ensures IsWhereOrdered(site.hz, w.stat.tracking, Ordered(w.params.g), w.params.g.startTime, now, p)
  {
    TargetFollowsSky(site, w, now);
    var g, n := w.params.g, w.params.g.targHa - GotoTarget(site, w, now).ha;
    if w.stat.tracking && now >= g.startTime {
      assert g.targHa - p.ha - 3 <= n <= g.targHa - p.ha + 3;
      TimesOrder(site.hz, g.targHa - p.ha - 3, n);
      TimesOrder(site.hz, n + 1, g.targHa - p.ha + 4);
    }
    hide GotoTarget;
  }

  lemma TimesOrder(k: nat, a: int, b: int)
    requires a <= b
    ensures k * a <= k * b
  {
    assert k * b == k * a + k * (b - a);
  }

  // ---------------------------------------------------------------- the end of a cardinal move

  /** The number of steps is at most m exactly if the time is short enough, and at least m if it is long enough. */
  lemma SkyStepsAtMost(hz: nat, now: int, start: int, n: int, m: int)
    requires hz > 0 && now >= start && SkySteps(hz, now, start, n)
    ensures n <= m <==> 31 * (now - start) < hz * (m + 1)
    ensures m <= n <==> hz * m <= 31 * (now - start)
  {
    if n <= m {
      TimesOrder(hz, n + 1, m + 1);
    } else {
      TimesOrder(hz, m + 1, n);
    }
    if m <= n {
      TimesOrder(hz, m, n);
    } else {
      TimesOrder(hz, n + 1, m);
    }
  }

  /** The place where the move was ended while tracking, as the sky has taken it along since the move began, is in
      range and not more than three steps west of the telescope, which is clear of the soft limits. */
  predicate CaughtUp(site: Site, w: World, now: int)
    requires ValidSite(site) && WF(w) && w.stat.card
  {
    var c, t := w.params.c, 31 * (now - w.params.c.startTime);
    && Clear(site.limits, w.ha, w.dec) && 0 <= w.dec <= STEPS_N_LIM
    && site.hz * (c.finalHa - STEPS_E_LIM) <= t < site.hz * (c.finalHa + 1)
    && t < site.hz * (c.finalHa - w.ha + 4)
  }

  /** A slow cardinal move whose end is asked for is over exactly if it was not ended while tracking, or has caught up
      with the sky; otherwise it goes west, at the minimum rate. */
  lemma CatchUpExactly(site: Site, w: World, now: int)
    requires ValidSite(site) && Inv(w) && w.stat.card && now >= w.params.c.startTime
    requires w.params.c.dirCur != 0 && w.params.c.dirReq == 0 && w.params.c.rateCur >= RATE_MIN
    ensures var u := ProceedCard(site, w, now);
            && Inv(u)
            && (!u.stat.card <==> w.params.c.finalHa == 0 || CaughtUp(site, w, now))
            && (u.stat.card ==> u.params.c.dirCur == u.hw.dir == 0x1 && u.params.c.rateCur >= RATE_MIN)
            && (u.stat.card && w.params.c.dirCur != 0x1 ==> u.hw.rate == 28284 && u.hw.counter == 0xFFFFFF)
  {
    hide CatchesUp, ProceedCard, TrackTime, CaughtUp, CalcDirection, CountAgrees, RatesAgree, StopKept;
    ProceedCardKeeps(site, w, now);
    CatchUpMeans(site, w, now);
    EndsOrCatchesUp(site, w, now);
  }

  predicate CatchesUp(site: Site, w: World, now: int)
    requires ValidSite(site) && WF(w) && w.stat.card
  {
    w.params.c.finalHa != 0 &&
    CalcDirection(site.limits, Pos(w.ha, w.dec),
                  Pos(w.params.c.finalHa - TrackTime(site, now, w.params.c.startTime), w.dec)) & DIR_WEST != 0
  }

  lemma EndsOrCatchesUp(site: Site, w: World, now: int)
    requires ValidSite(site) && WF(w) && w.stat.card
    requires w.params.c.dirCur != 0 && w.params.c.dirReq == 0 && w.params.c.rateCur >= RATE_MIN
    requires w.hw.dir == w.params.c.dirCur
    ensures var u := ProceedCard(site, w, now);
            && WF(u) && (u.stat.card <==> CatchesUp(site, w, now))
            && (u.stat.card ==> u.params.c.dirCur == u.hw.dir == 0x1 && u.params.c.rateCur >= RATE_MIN)
            && (u.stat.card && w.params.c.dirCur != 0x1 ==> u.hw.rate == 28284 && u.hw.counter == 0xFFFFFF)
  {
    hide CalcDirection, TrackTime, CreditHa, CreditDec, Frozen, ToggleTracking;
    var c := w.params.c;
    var d := CalcDirection(site.limits, Pos(w.ha, w.dec),
                           Pos(c.finalHa - TrackTime(site, now, c.startTime), w.dec)) & DIR_WEST;
    OneBit(CalcDirection(site.limits, Pos(w.ha, w.dec), Pos(c.finalHa - TrackTime(site, now, c.startTime), w.dec)));
    ResumingIsNotCard(site, StopMove(site, w));
    assert ProceedCard(site, w, now) == FinishCard(site, w, now);
  }

  lemma OneBit(dir: bv8)
    ensures dir & DIR_WEST != 0 ==> dir & DIR_WEST == 0x1
  {
  }

  lemma ResumingIsNotCard(site: Site, w: World)
    requires WF(w)
    ensures var v := w.(stat := w.stat.(card := false));
            WF(v) && WF(ResumeTracking(site, v)) && !ResumeTracking(site, v).stat.card
  {
    hide CreditHa, CreditDec, SendDirection;
  }

  lemma CatchUpMeans(site: Site, w: World, now: int)
    requires ValidSite(site) && WF(w) && w.stat.card && now >= w.params.c.startTime
    ensures CatchesUp(site, w, now) <==> w.params.c.finalHa != 0 && !CaughtUp(site, w, now)
  {
    hide TrackTime, Clear, SkySteps, CalcDirection;
    var c, n := w.params.c, TrackTime(site, now, w.params.c.startTime);
    TrackTimeIsSkySteps(site, now, c.startTime);
    SkyStepsAtMost(site.hz, now, c.startTime, n, c.finalHa);
    SkyStepsAtMost(site.hz, now, c.startTime, n, c.finalHa - STEPS_E_LIM);
    SkyStepsAtMost(site.hz, now, c.startTime, n, c.finalHa - w.ha + 3);
    GoesWestExactly(site.limits, Pos(w.ha, w.dec), c.finalHa - n);
  }

  /** Also when the planner has no answer, because the byte of its error has all bits. */
  lemma GoesWestExactly(t: Limits, p: Pos, ha: int)
    requires Valid(t)
    ensures CalcDirection(t, p, Pos(ha, p.dec)) & DIR_WEST != 0
            <==> !(Clear(t, p.ha, p.dec) && InRange(Pos(ha, p.dec)) && p.ha <= ha + 3)
  {
    hide Clear;
  }

  /** Where the move is ended, while tracking: the place that it is to be left at. */
  lemma EndMarksPlace(site: Site, w: World)
    requires ValidSite(site) && Inv(w) && w.stat.card && !w.params.c.handset
    ensures var u := Step(site, w, EndCardEvent);
            && u.stat == w.stat && u.params.Card?
            && u.params.c.dirReq == 0 && u.params.c.startTime == w.params.c.startTime
            && u.params.c.finalHa == if w.stat.tracking then w.ha else w.params.c.finalHa
  {
  }

  // ---------------------------------------------------------------- tracking corrections

  /** What is open of a correction is nothing or more than the tolerance. */
  predicate Proper(a: int, d: int) {
    (a == 0 || Abs(a) > 3) && (d == 0 || Abs(d) > 2) && !(a == 0 && d == 0)
  }

  function Bits(a: int, d: int): bv8 {
    (if d > 0 then 0x4 else if d < 0 then 0x8 else 0) | (if a > 0 then 0x2 else if a < 0 then 0x1 else 0)
  }

  /** A correction by a and d is under way, everything is booked, and no limit is near. */
  predicate Correcting(site: Site, w: World, a: int, d: int)
    requires ValidSite(site)
  {
    && Inv(w) && !w.stat.goto && !w.stat.card && w.stat.tracking && !w.stat.errLims
    && w.hardLims == 0 && w.altLims == 0 && Clear(site.limits, w.ha, w.dec)
    && Proper(a, d) && w.params == Track(TrackParams(a, d, w.ha, w.dec, Bits(a, d)))
    && w.last == w.hw.counter && w.hw.dir == TrackPort(Bits(a, d))
  }

  lemma BitsMean(a: int, d: int)
    requires Proper(a, d)
    ensures var b := Bits(a, d);
            && b != 0 && !Frozen(TrackPort(b)) && (Hits(b, DIR_HA) <==> a != 0) && (Hits(b, DIR_DEC) <==> d != 0)
            && Hits(b | DIR_WEST, DIR_WEST) && (Hits(b | DIR_WEST, DIR_NORTH) <==> d > 0)
            && (Hits(b | DIR_WEST, DIR_SOUTH) <==> d < 0)
  {
  }

  lemma TowardsBits(p: Pos, a: int, d: int)
    requires Proper(a, d) || (a == 0 && d == 0)
    ensures Towards(p, Pos(p.ha + a, p.dec + d)) == Bits(a, d)
  {
  }

  /** A step of a correction counts one up where it is not counted in hour angle. */
  function Sense(d: int): int {
    if d > 0 then 1 else if d < 0 then -1 else 0
  }

  /** What a tick leaves open of a correction in hour angle, k steps after the last one: these count as made westwards,
      and one of them as the sky's. */
  function NextHa(a: int, k: nat): int {
    if a == 0 || Abs(a + k - 1) <= 3 then 0 else a + k - 1
  }

  /** And in declination: what was made is added to what is open, not taken off. */
  function NextDec(d: int, k: nat): int {
    if d > 0 then d + k else if d < 0 then d - k else 0
  }

  /** The axes make k steps and the monitor looks. */
  function Round(site: Site, w: World, k: nat): (u: World)
    requires ValidSite(site) && Inv(w)
    ensures Inv(u)
  {
    Step(site, Step(site, w, StepsEvent(k)), TickEvent(0, 0))
  }

  /** The way is clear, and what is open lies in range. */
  predicate Unhindered(site: Site, w: World, a: int, d: int, k: nat)
    requires ValidSite(site)
  {
    && k <= w.hw.counter && Clear(site.limits, w.ha - k, w.dec + Sense(d) * k)
    && InRange(Pos(w.ha - k + NextHa(a, k), w.dec + Sense(d) * k + NextDec(d, k)))
  }

  /** The state in which the monitor comes to the correction, k steps after it was last booked. */
  predicate Looked(site: Site, v: World, a: int, d: int, k: nat)
    requires ValidSite(site)
  {
    && Inv(v) && !v.stat.goto && !v.stat.card && v.stat.tracking && !v.stat.errLims
    && v.hardLims == 0 && v.altLims == 0 && v.last == v.hw.counter
    && Proper(a, d) && v.params == Track(TrackParams(a, d, v.ha + k, v.dec - Sense(d) * k, Bits(a, d)))
    && v.hw.dir == TrackPort(Bits(a, d))
  }

  lemma RoundLooks(site: Site, w: World, a: int, d: int, k: nat)
    requires ValidSite(site) && Correcting(site, w, a, d) && k <= w.hw.counter
    ensures var v := LookAround(site, Step(site, w, StepsEvent(k)), 0);
            && Looked(site, v, a, d, k) && v.ha == w.ha - k && v.dec == w.dec + Sense(d) * k
            && Round(site, w, k) == CheckTracking(site, v)
  {
    hide TrackPort, CheckTracking, RatesAgree, StopKept;
    BitsMean(a, d);
    var w1 := Step(site, w, StepsEvent(k));
    LookAroundKeeps(site, w1, 0);
    StepsMade(w.hw, k);
    hide Frozen, Hits, Bits;
    assert DriverDir(site, w1) == Bits(a, d) | DIR_WEST;
  }

  lemma StepsMade(hw: Hardware, k: nat)
    requires !Frozen(hw.dir) && k <= hw.counter
    ensures var v := MoveSteps(hw, k); v.counter == hw.counter - k && v.dir == hw.dir && v.rate == hw.rate
  {
  }

  /** The correction goes on with what is open, or the telescope is back on the sky's way. */
  lemma RoundCorrects(site: Site, w: World, a: int, d: int, k: nat)
    requires ValidSite(site) && Correcting(site, w, a, d) && Unhindered(site, w, a, d, k)
    ensures var u := Round(site, w, k);
            && u.ha == w.ha - k && u.dec == w.dec + Sense(d) * k
            && if NextHa(a, k) == 0 && NextDec(d, k) == 0 then BackOnTrack(u)
               else Correcting(site, u, NextHa(a, k), NextDec(d, k))
  {
    hide LookAround, Round, Clear, Looked, CheckTracking;
    RoundLooks(site, w, a, d, k);
    Steers(site, LookAround(site, Step(site, w, StepsEvent(k)), 0), a, d, k);
  }

  predicate BackOnTrack(w: World) {
    w.stat.tracking && !w.stat.goto && !w.stat.card && w.params.Track? && w.params.t.trackDir == 0
    && w.params.t.adjHa == 0 && w.params.t.adjDec == 0 && w.hw.dir == 0x1 && w.hw.rate == 57381
  }

  lemma Books(a: int, d: int, ha: int, dec: int, k: nat)
    requires Proper(a, d)
    ensures var t := BookCorrection(TrackParams(a, d, ha, dec, Bits(a, d)), ha - k, dec + Sense(d) * k);
            && DropSmall(t) == TrackParams(NextHa(a, k), NextDec(d, k), ha - k, dec + Sense(d) * k, Bits(a, d))
            && t.trackDir != 0
  {
    hide Hits;
    BitsMean(a, d);
  }

  lemma Steers(site: Site, v: World, a: int, d: int, k: nat)
    requires ValidSite(site) && Looked(site, v, a, d, k) && Clear(site.limits, v.ha, v.dec)
    requires InRange(Pos(v.ha + NextHa(a, k), v.dec + NextDec(d, k)))
    ensures var u := CheckTracking(site, v);
            && u.ha == v.ha && u.dec == v.dec
            && if NextHa(a, k) == 0 && NextDec(d, k) == 0 then BackOnTrack(u)
               else Correcting(site, u, NextHa(a, k), NextDec(d, k))
  {
    hide Clear, Frozen, Hits, BookCorrection, DropSmall, Towards, Bits, DirAgrees, CountAgrees, RatesAgree, StopKept;
    CheckTrackingKeeps(site, v);
    Books(a, d, v.ha + k, v.dec - Sense(d) * k, k);
    TowardsBits(Pos(v.ha, v.dec), NextHa(a, k), NextDec(d, k));
    NoLimits(Bits(a, d) | DIR_WEST);
    hide HitsEither;
    if NextHa(a, k) == 0 && NextDec(d, k) == 0 {
      NoBits();
      BitsMean(a, d);
      var c := DropSmall(BookCorrection(AsTrack(site, v.params), v.ha, v.dec));
      assert CalcDirection(site.limits, Pos(v.ha, v.dec), Pos(v.ha + c.adjHa, v.dec + c.adjDec)) == 0 != Bits(a, d);
    }
  }

  lemma NoLimits(dir: bv8)
    ensures !HitsEither(0, 0, dir)
  {
  }

  lemma NoBits()
    ensures Bits(0, 0) == 0 && TrackPort(0) == 0x1 && TrackRate(0) == 57381
  {
  }

  /** An adjustment that the monitor finds while the telescope goes with the sky begins such a correction. */
  lemma AdjustmentBegins(site: Site, w: World, a: int, d: int)
    requires ValidSite(site) && Inv(w) && !w.stat.goto && !w.stat.card && w.stat.tracking && !w.stat.errLims
    requires w.hardLims == 0 && w.altLims == 0 && Clear(site.limits, w.ha, w.dec) && w.last == w.hw.counter
    requires w.params.Track? && w.params.t.trackDir == 0 && Proper(a, d) && InRange(Pos(w.ha + a, w.dec + d))
    ensures Correcting(site, CheckTracking(site, AdjustTracking(site, w, a, d)), a, d)
  {
    hide CheckTracking, AdjustTracking, Clear, CountAgrees, RatesAgree, StopKept, DirAgrees, TrackPort, Bits;
    var v := w.(params := Track(w.params.t.(adjHa := a, adjDec := d)));
    AdjustTrackingKeeps(site, w, a, d);
    Adjusts(site, w, a, d);
    CheckTrackingKeeps(site, v);
    Begins(site, v, a, d);
  }

  lemma Adjusts(site: Site, w: World, a: int, d: int)
    requires WF(w) && !w.stat.Moving() && w.stat.tracking && w.params.Track? && Proper(a, d)
    ensures AdjustTracking(site, w, a, d) == w.(params := Track(w.params.t.(adjHa := a, adjDec := d)))
  {
  }

  lemma Begins(site: Site, v: World, a: int, d: int)
    requires ValidSite(site) && WF(v) && !v.stat.goto && !v.stat.card && v.stat.tracking
    requires v.hardLims == 0 && v.altLims == 0 && Clear(site.limits, v.ha, v.dec) && v.last == v.hw.counter
    requires v.params.Track? && v.params.t.trackDir == 0 && v.params.t.adjHa == a && v.params.t.adjDec == d
    requires Proper(a, d) && InRange(Pos(v.ha + a, v.dec + d))
    ensures var u := CheckTracking(site, v);
            && u.stat == v.stat && u.hardLims == 0 && u.altLims == 0 && u.ha == v.ha && u.dec == v.dec
            && u.params == Track(TrackParams(a, d, u.ha, u.dec, Bits(a, d)))
            && u.last == u.hw.counter && u.hw.dir == TrackPort(Bits(a, d))
  {
    hide Clear, Frozen, Hits, Towards, Bits, TrackPort, TrackRate;
    BitsMean(a, d);
    TowardsBits(Pos(v.ha, v.dec), a, d);
    NoLimits(0 | DIR_WEST);
    NoHits();
    hide HitsEither;
  }

  lemma NoHits()
    ensures !Hits(0, DIR_HA) && !Hits(0, DIR_DEC)
  {
  }

  // ---------------------------------------------------------------- whole corrections

  /** Round by round. */
  function Rounds(ks: seq<nat>): (es: seq<Event>)
    decreases |ks|
  {
    if ks == [] then [] else [StepsEvent(ks[0]), TickEvent(0, 0)] + Rounds(ks[1..])
  }

  lemma RunRounds(site: Site, w: World, ks: seq<nat>)
    requires ValidSite(site) && Inv(w) && ks != []
    ensures Run(site, w, Rounds(ks)) == Run(site, Round(site, w, ks[0]), Rounds(ks[1..]))
  {
    hide Inv, Effect;
    RunSplits(site, w, [StepsEvent(ks[0]), TickEvent(0, 0)], Rounds(ks[1..]));
    RunOfTwo(site, w, StepsEvent(ks[0]), TickEvent(0, 0));
  }

  /** The way stays clear and what is open in range for as long as the correction is under way. */
  ghost predicate UnhinderedRounds(site: Site, w: World, a: int, d: int, ks: seq<nat>)
    requires ValidSite(site) && Inv(w)
    decreases |ks|
  {
    ks != [] && Proper(a, d) ==>
      && Unhindered(site, w, a, d, ks[0])
      && UnhinderedRounds(site, Round(site, w, ks[0]), NextHa(a, ks[0]), NextDec(d, ks[0]), ks[1..])
  }

  /** The round after which nothing is open, if there is one. */
  predicate Ends(a: int, d: int, ks: seq<nat>)
    decreases |ks|
  {
    (a == 0 && d == 0) || (ks != [] && Ends(NextHa(a, ks[0]), NextDec(d, ks[0]), ks[1..]))
  }

  function Total(ks: seq<nat>): nat
    decreases |ks|
  {
    if ks == [] then 0 else ks[0] + Total(ks[1..])
  }

  /** A correction that ends leaves the telescope within three steps of where it was ordered, taken along by one step
      a round; that place is west of where the correction began. */
  lemma {:induction false} EndedCorrection(site: Site, w: World, a: int, d: int, ks: seq<nat>) returns (n: nat)
    requires ValidSite(site) && Correcting(site, w, a, d) && UnhinderedRounds(site, w, a, d, ks) && Ends(a, d, ks)
    requires forall k :: k in ks ==> k >= 1
    ensures 0 < n <= |ks| && BackOnTrack(Run(site, w, Rounds(ks[..n])))
    ensures d == 0 && a < 0
    ensures var u := Run(site, w, Rounds(ks[..n])); u.dec == w.dec && -3 <= u.ha - (w.ha + a - n) <= 3
    decreases |ks|
  {
    hide Correcting, BackOnTrack, Unhindered, Round, Run;
    CorrectingMeans(site, w, a, d);
    var k := ks[0];
    assert k in ks && forall j :: j in ks[1..] ==> j in ks;
    RoundCorrects(site, w, a, d, k);
    var u, a', d' := Round(site, w, k), NextHa(a, k), NextDec(d, k);
    RunRounds(site, w, ks[..1]);
    if a' == 0 && d' == 0 {
      n := 1;
      assert ks[..1][1..] == [];
      NoRounds(site, u);
    } else {
      CorrectingMeans(site, u, a', d');
      n := EndedCorrection(site, u, a', d', ks[1..]);
      n := n + 1;
      assert ks[..n][0] == k && ks[..n][1..] == ks[1..][..n - 1];
      RunRounds(site, w, ks[..n]);
    }
  }

  lemma CorrectingMeans(site: Site, w: World, a: int, d: int)
    requires ValidSite(site) && Correcting(site, w, a, d)
    ensures Inv(w) && Proper(a, d)
  {
  }

  lemma NoRounds(site: Site, w: World)
    requires ValidSite(site) && Inv(w)
    ensures Run(site, w, Rounds([])) == w
  {
  }

  /** A correction to the north, south or east never ends by itself: what is open of it grows with every step. */
  lemma {:induction false} OtherCorrectionsNeverEnd(site: Site, w: World, a: int, d: int, ks: seq<nat>)
    returns (a': int, d': int)
    requires ValidSite(site) && Correcting(site, w, a, d) && UnhinderedRounds(site, w, a, d, ks)
    requires (d != 0 || a > 0) && forall k :: k in ks ==> k >= 1
    ensures !Ends(a, d, ks) && Correcting(site, Run(site, w, Rounds(ks)), a', d')
    ensures d > 0 ==> d' == d + Total(ks)
    ensures d < 0 ==> d' == d - Total(ks)
    ensures a > 0 ==> a' == a + Total(ks) - |ks|
    decreases |ks|
  {
    hide Correcting, Unhindered, Round, Run;
    CorrectingMeans(site, w, a, d);
    a', d' := a, d;
    if ks == [] {
      NoRounds(site, w);
    } else {
      var k := ks[0];
      assert k in ks && forall j :: j in ks[1..] ==> j in ks;
      RoundCorrects(site, w, a, d, k);
      RunRounds(site, w, ks);
      a', d' := OtherCorrectionsNeverEnd(site, Round(site, w, k), NextHa(a, k), NextDec(d, k), ks[1..]);
    }
  }

  /** What is open to the west shrinks until it is not more than three steps; then it is not beyond the tolerance to the
      east. */
  predicate Lands(a: int, ks: seq<nat>)
    decreases |ks|
  {
    if a >= -3 then a <= 3 else ks != [] && Lands(a + ks[0] - 1, ks[1..])
  }

  /** So corrections end exactly if they are to the west, in hour angle alone, and the axes do not step over the
      place. */
  lemma {:induction false} CorrectionEndsExactly(a: int, d: int, ks: seq<nat>)
    requires Proper(a, d) && forall k :: k in ks ==> k >= 1
    ensures Ends(a, d, ks) <==> d == 0 && a < 0 && Lands(a, ks)
    decreases |ks|
  {
    if ks != [] {
      var k := ks[0];
      assert k in ks && forall j :: j in ks[1..] ==> j in ks;
      var a', d' := NextHa(a, k), NextDec(d, k);
      if a' != 0 || d' != 0 {
        CorrectionEndsExactly(a', d', ks[1..]);
      }
    }
  }

  /** The step that a round books for the sky: in a second of twenty rounds the sky makes eleven more. */
  lemma SkyOutrunsRounds(site: Site, start: int)
    requires site.hz > 0
    ensures TrackTime(site, start + site.hz, start) == 20 * STEPS_PER_TICK + 11
  {
    QuotientBounds(31 * site.hz, site.hz);
    var q := 31 * site.hz / site.hz;
    assert site.hz * q <= 31 * site.hz < site.hz * (q + 1);
    assert q == 31;
  }
}
