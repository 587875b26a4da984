/** Generation of the soft limit tables by bisection on the altitude.
    The altitude (in degrees, at a given hour angle and declination step) is an abstract function. */
module LimitTables {
  import opened MotorDefs
  import opened SoftLimits

  type Altitude = (int, int) -> real

  datatype Option<T> = None | Some(value: T)

  /** Where the program begins on either side: the middle of the range. The meridian itself lies east of it, at
      step 582696. */
  const MIDDLE := STEPS_E_LIM / 2

  function BisectAlt(alt: Altitude, dec: int, low: nat, hi: nat, lim: real): (r: nat)
    ensures Between(low, r, hi) && (low != hi ==> r != hi)
    decreases Abs(low - hi)
  {
    if Abs(low - hi) <= 1 then low
    else
      var mid := (low + hi) / 2;
      if alt(mid, dec) == lim then mid
      else if alt(mid, dec) < lim then BisectAlt(alt, dec, mid, hi, lim)
      else BisectAlt(alt, dec, low, mid, lim)
  }

  /** The step after r on the way from low to hi. */
  function Next(low: nat, hi: nat, r: nat): int {
    if low <= hi then r + 1 else r - 1
  }

  /** From either side: the step found is not above the limit, and it is on the limit or next to one at or above it. */
  lemma {:induction false} BisectFinds(alt: Altitude, dec: int, low: nat, hi: nat, lim: real)
    requires alt(low, dec) <= lim <= alt(hi, dec)
    ensures var r := BisectAlt(alt, dec, low, hi, lim);
            && alt(r, dec) <= lim
            && (alt(r, dec) == lim || (r != hi && alt(Next(low, hi, r), dec) >= lim))
    decreases Abs(low - hi)
  {
    if Abs(low - hi) > 1 {
      var mid := (low + hi) / 2;
      if alt(mid, dec) < lim {
        BisectFinds(alt, dec, mid, hi, lim);
      } else if alt(mid, dec) > lim {
        BisectFinds(alt, dec, low, mid, lim);
      }
    }
  }

  function LimStepsW(alt: Altitude, dec: int, lim: real): (r: nat)
    ensures r <= STEPS_E_LIM
  {
    if alt(0, dec) > lim then 0
    else if alt(MIDDLE, dec) < lim then STEPS_E_LIM
    else if alt(0, dec) >= alt(MIDDLE, dec) then STEPS_E_LIM
    else BisectAlt(alt, dec, 0, MIDDLE, lim)
  }

  function LimStepsE(alt: Altitude, dec: int, lim: real): (r: nat)
    ensures r <= STEPS_E_LIM
  {
    if alt(STEPS_E_LIM, dec) > lim then STEPS_E_LIM
    else if alt(MIDDLE, dec) < lim then 0
    else if alt(STEPS_E_LIM, dec) >= alt(MIDDLE, dec) then 0
    else BisectAlt(alt, dec, STEPS_E_LIM, MIDDLE, lim)
  }

  // ---------------------------------------------------------------- the sky

  /** At this declination the altitude grows strictly up to a step not west of the middle, and falls after it. */
  ghost predicate RisesTo(alt: Altitude, dec: int, peak: int) {
    MIDDLE <= peak <= STEPS_E_LIM &&
    forall a: int, b: int {:trigger alt(a, dec), alt(b, dec)} ::
      (0 <= a < b <= peak ==> alt(a, dec) < alt(b, dec)) && (peak <= a < b <= STEPS_E_LIM ==> alt(a, dec) > alt(b, dec))
  }

  /** Beyond the pole it falls first, and rises after that step. */
  ghost predicate DipsTo(alt: Altitude, dec: int, valley: int) {
    MIDDLE <= valley <= STEPS_E_LIM &&
    forall a: int, b: int {:trigger alt(a, dec), alt(b, dec)} ::
      (0 <= a < b <= valley ==> alt(a, dec) > alt(b, dec)) &&
      (valley <= a < b <= STEPS_E_LIM ==> alt(a, dec) < alt(b, dec))
  }

  ghost predicate Flat(alt: Altitude, dec: int) {
    forall a: int, b: int {:trigger alt(a, dec), alt(b, dec)} :: alt(a, dec) == alt(b, dec)
  }

  ghost predicate HasPeak(alt: Altitude, dec: int) {
    exists peak :: RisesTo(alt, dec, peak)
  }

  /** At every hour angle the altitude is lower at declination e than at d. */
  ghost predicate LowerAt(alt: Altitude, d: int, e: int) {
    forall ha: int {:trigger alt(ha, d)} {:trigger alt(ha, e)} ::
      0 <= ha <= STEPS_E_LIM ==> alt(ha, e) < alt(ha, d)
  }

  /** Both, for all declinations from one on. */
  ghost predicate RegularFrom(alt: Altitude, from: int) {
    && (forall dec :: from <= dec < STEPS_N_LIM ==> HasPeak(alt, dec))
    && (forall d, e :: from <= d < e < STEPS_N_LIM ==> LowerAt(alt, d, e))
  }

  /** The program's formula: the altitude is the inverse sine of the sines and cosines of latitude, declination and hour
      angle. lift stands for the inverse sine in degrees, base and scale for the products at a declination (scale has
      the sign of the cosine of the declination), and turn for the cosine of the hour angle. */
  datatype Sky = Sky(lift: real -> real, base: int -> real, scale: int -> real, turn: int -> real, peak: int)

  ghost predicate ValidSky(sky: Sky) {
    && MIDDLE <= sky.peak <= STEPS_E_LIM
    && (forall x: real, y: real {:trigger sky.lift(x), sky.lift(y)} :: x < y ==> sky.lift(x) < sky.lift(y))
    && (forall a: int, b: int {:trigger sky.turn(a), sky.turn(b)} ::
          (0 <= a < b <= sky.peak ==> sky.turn(a) < sky.turn(b)) &&
          (sky.peak <= a < b <= STEPS_E_LIM ==> sky.turn(a) > sky.turn(b)))
    && sky.turn(STEPS_E_LIM) < sky.turn(MIDDLE)
  }

  function SineAt(sky: Sky, ha: int, dec: int): real {
    sky.base(dec) + sky.scale(dec) * sky.turn(ha)
  }

  ghost predicate IsAltitudeOf(alt: Altitude, sky: Sky) {
    forall ha: int, dec: int {:trigger alt(ha, dec)} :: alt(ha, dec) == sky.lift(SineAt(sky, ha, dec))
  }

  lemma Scaled(s: real, x: real, y: real)
    requires x < y
    ensures s > 0.0 ==> s * x < s * y
    ensures s < 0.0 ==> s * x > s * y
    ensures s == 0.0 ==> s * x == s * y == 0.0
  {
    var d := y - x;
    ProductSign(s, d);
    assert s * y == s * x + s * d;
  }

  lemma ProductSign(s: real, d: real)
    requires d > 0.0
    ensures s > 0.0 ==> s * d > 0.0
    ensures s < 0.0 ==> s * d < 0.0
  {
  }

  /** Hour angles nearer to the meridian are higher where the scale is positive, and lower where it is negative. */
  lemma HigherBy(alt: Altitude, sky: Sky, a: int, b: int, dec: int)
    requires ValidSky(sky) && IsAltitudeOf(alt, sky) && sky.turn(a) < sky.turn(b)
    ensures sky.scale(dec) > 0.0 ==> alt(a, dec) < alt(b, dec)
    ensures sky.scale(dec) < 0.0 ==> alt(a, dec) > alt(b, dec)
  {
    hide SineAt;
    SineOrder(sky, a, b, dec);
    var x, y := SineAt(sky, a, dec), SineAt(sky, b, dec);
    assert alt(a, dec) == sky.lift(x) && alt(b, dec) == sky.lift(y);
  }

  lemma SineOrder(sky: Sky, a: int, b: int, dec: int)
    requires sky.turn(a) < sky.turn(b)
    ensures sky.scale(dec) > 0.0 ==> SineAt(sky, a, dec) < SineAt(sky, b, dec)
    ensures sky.scale(dec) < 0.0 ==> SineAt(sky, a, dec) > SineAt(sky, b, dec)
  {
    var s, x, y := sky.scale(dec), sky.turn(a), sky.turn(b);
    Scaled(s, x, y);
    assert SineAt(sky, a, dec) == sky.base(dec) + s * x;
    assert SineAt(sky, b, dec) == sky.base(dec) + s * y;
  }

  /** North of the pole every row has its peak at the meridian, and is higher in the middle than at the eastern end. */
  lemma RowsRise(alt: Altitude, sky: Sky, dec: int)
    requires ValidSky(sky) && IsAltitudeOf(alt, sky) && sky.scale(dec) > 0.0
    ensures RisesTo(alt, dec, sky.peak) && alt(STEPS_E_LIM, dec) < alt(MIDDLE, dec)
  {
    HigherBy(alt, sky, STEPS_E_LIM, MIDDLE, dec);
    forall a: int, b: int | 0 <= a < b <= STEPS_E_LIM
      ensures b <= sky.peak ==> alt(a, dec) < alt(b, dec)
      ensures sky.peak <= a ==> alt(a, dec) > alt(b, dec)
    {
      if b <= sky.peak {
        assert sky.turn(a) < sky.turn(b);
        HigherBy(alt, sky, a, b, dec);
      }
      if sky.peak <= a {
        assert sky.turn(b) < sky.turn(a);
        HigherBy(alt, sky, b, a, dec);
      }
    }
  }

  /** Beyond it every row dips there, and is lower in the middle than at the eastern end. */
  lemma RowsDip(alt: Altitude, sky: Sky, dec: int)
    requires ValidSky(sky) && IsAltitudeOf(alt, sky) && sky.scale(dec) < 0.0
    ensures DipsTo(alt, dec, sky.peak) && alt(STEPS_E_LIM, dec) > alt(MIDDLE, dec)
  {
    HigherBy(alt, sky, STEPS_E_LIM, MIDDLE, dec);
    forall a: int, b: int | 0 <= a < b <= STEPS_E_LIM
      ensures b <= sky.peak ==> alt(a, dec) > alt(b, dec)
      ensures sky.peak <= a ==> alt(a, dec) < alt(b, dec)
    {
      if b <= sky.peak {
        assert sky.turn(a) < sky.turn(b);
        HigherBy(alt, sky, a, b, dec);
      }
      if sky.peak <= a {
        assert sky.turn(b) < sky.turn(a);
        HigherBy(alt, sky, b, a, dec);
      }
    }
  }

  lemma RowsAreFlat(alt: Altitude, sky: Sky, dec: int)
    requires IsAltitudeOf(alt, sky) && sky.scale(dec) == 0.0
    ensures Flat(alt, dec)
  {
    forall a: int, b: int ensures alt(a, dec) == alt(b, dec) {
      assert SineAt(sky, a, dec) == sky.base(dec) == SineAt(sky, b, dec);
    }
  }

  function Line(c: real, s: real, x: real): real {
    c + s * x
  }

  lemma LineOrder(c: real, s: real, x: real, y: real)
    requires x <= y
    ensures s >= 0.0 ==> Line(c, s, x) <= Line(c, s, y)
    ensures s <= 0.0 ==> Line(c, s, x) >= Line(c, s, y)
  {
    if x < y {
      Scaled(s, x, y);
    }
  }

  /** A linear function that is negative on both ends of an interval is negative on it. */
  lemma NegativeBetween(c: real, s: real, x: real, y: real, z: real)
    requires x <= y <= z && Line(c, s, x) < 0.0 && Line(c, s, z) < 0.0
    ensures Line(c, s, y) < 0.0
  {
    hide Line;
    LineOrder(c, s, x, y);
    LineOrder(c, s, y, z);
  }

  predicate LowerAtThree(alt: Altitude, peak: int, d: int, e: int) {
    alt(0, e) < alt(0, d) && alt(peak, e) < alt(peak, d) && alt(STEPS_E_LIM, e) < alt(STEPS_E_LIM, d)
  }

  lemma LowerMeans(alt: Altitude, sky: Sky, ha: int, d: int, e: int)
    requires ValidSky(sky) && IsAltitudeOf(alt, sky)
    ensures alt(ha, e) < alt(ha, d)
            <==> Line(sky.base(e) - sky.base(d), sky.scale(e) - sky.scale(d), sky.turn(ha)) < 0.0
  {
    var x, y := SineAt(sky, ha, e), SineAt(sky, ha, d);
    assert alt(ha, e) == sky.lift(x) && alt(ha, d) == sky.lift(y);
    assert x < y || x == y || y < x;
    assert x < y <==> sky.lift(x) < sky.lift(y);
    assert (sky.scale(e) - sky.scale(d)) * sky.turn(ha) == sky.scale(e) * sky.turn(ha) - sky.scale(d) * sky.turn(ha);
  }

  /** The altitude is lower at declination e than at d throughout, exactly if it is at both ends and at the meridian. */
  lemma LowerExactly(alt: Altitude, sky: Sky, d: int, e: int)
    requires ValidSky(sky) && IsAltitudeOf(alt, sky)
    ensures LowerAt(alt, d, e) <==> LowerAtThree(alt, sky.peak, d, e)
  {
    if LowerAtThree(alt, sky.peak, d, e) {
      forall ha: int | 0 <= ha <= STEPS_E_LIM ensures alt(ha, e) < alt(ha, d) {
        LowerBetween(alt, sky, ha, d, e);
      }
    }
  }

  lemma TurnBetween(sky: Sky, ha: int)
    requires ValidSky(sky) && 0 <= ha <= STEPS_E_LIM
    ensures sky.turn(if ha <= sky.peak then 0 else STEPS_E_LIM) <= sky.turn(ha) <= sky.turn(sky.peak)
  {
    var end := if ha <= sky.peak then 0 else STEPS_E_LIM;
    assert end != ha ==> sky.turn(end) < sky.turn(ha);
    assert sky.peak != ha ==> sky.turn(ha) < sky.turn(sky.peak);
  }

  lemma LowerBetween(alt: Altitude, sky: Sky, ha: int, d: int, e: int)
    requires ValidSky(sky) && IsAltitudeOf(alt, sky) && LowerAtThree(alt, sky.peak, d, e) && 0 <= ha <= STEPS_E_LIM
    ensures alt(ha, e) < alt(ha, d)
  {
    hide IsAltitudeOf, ValidSky, Line;
    var end := if ha <= sky.peak then 0 else STEPS_E_LIM;
    TurnBetween(sky, ha);
    LowerMeans(alt, sky, end, d, e);
    LowerMeans(alt, sky, ha, d, e);
    LowerMeans(alt, sky, sky.peak, d, e);
    NegativeBetween(sky.base(e) - sky.base(d), sky.scale(e) - sky.scale(d),
                    sky.turn(end), sky.turn(ha), sky.turn(sky.peak));
  }

  // ---------------------------------------------------------------- nesting

  lemma WestLimitGrows(alt: Altitude, d: int, e: int, lim: real)
    requires HasPeak(alt, d) && HasPeak(alt, e) && (d == e || LowerAt(alt, d, e))
    ensures LimStepsW(alt, d, lim) <= LimStepsW(alt, e, lim)
  {
    assert alt(0, d) < alt(MIDDLE, d) && alt(0, e) < alt(MIDDLE, e);
    if d != e {
      assert alt(0, e) < alt(0, d) && alt(MIDDLE, e) < alt(MIDDLE, d);
      if alt(0, d) <= lim <= alt(MIDDLE, e) {
        var r: int, s: int := LimStepsW(alt, d, lim), LimStepsW(alt, e, lim);
        assert alt(r, e) < alt(r, d);
        assert (s < r ==> alt(s, e) < alt(r, e)) && (s + 1 < r ==> alt(s + 1, e) < alt(r, e));
        WestBisection(alt, d, e, lim, r, s);
      }
    }
  }

  lemma WestBisection(alt: Altitude, d: int, e: int, lim: real, r: int, s: int)
    requires alt(0, d) <= lim <= alt(MIDDLE, d) && alt(0, e) <= lim <= alt(MIDDLE, e)
    requires r == BisectAlt(alt, d, 0, MIDDLE, lim) && s == BisectAlt(alt, e, 0, MIDDLE, lim)
    requires alt(r, e) < alt(r, d)
    requires (s < r ==> alt(s, e) < alt(r, e)) && (s + 1 < r ==> alt(s + 1, e) < alt(r, e))
    ensures r <= s
  {
    hide BisectAlt;
    BisectFinds(alt, d, 0, MIDDLE, lim);
    BisectFinds(alt, e, 0, MIDDLE, lim);
  }

  /** East of the middle, a step below the limit has only such steps after it. */
  lemma OnlyLowerAfter(alt: Altitude, dec: int, lim: real, a: int, b: int)
    requires HasPeak(alt, dec) && MIDDLE <= a <= b <= STEPS_E_LIM && lim <= alt(MIDDLE, dec)
    requires alt(a, dec) < lim
    ensures alt(b, dec) < lim
  {
    var peak :| RisesTo(alt, dec, peak);
    assert MIDDLE < a <= peak ==> alt(MIDDLE, dec) < alt(a, dec);
    assert peak <= a < b ==> alt(a, dec) > alt(b, dec);
  }

  lemma EastLimitShrinks(alt: Altitude, d: int, e: int, lim: real)
    requires HasPeak(alt, d) && HasPeak(alt, e) && (d == e || LowerAt(alt, d, e))
    ensures LimStepsE(alt, e, lim) <= LimStepsE(alt, d, lim)
  {
    if d != e {
      assert alt(STEPS_E_LIM, e) < alt(STEPS_E_LIM, d) && alt(MIDDLE, e) < alt(MIDDLE, d);
      if alt(STEPS_E_LIM, d) <= lim <= alt(MIDDLE, e) {
        EastBisection(alt, d, e, lim);
      }
    }
  }

  lemma EastBisection(alt: Altitude, d: int, e: int, lim: real)
    requires HasPeak(alt, e) && LowerAt(alt, d, e)
    requires alt(STEPS_E_LIM, d) <= lim <= alt(MIDDLE, d) && alt(STEPS_E_LIM, e) <= lim <= alt(MIDDLE, e)
    ensures BisectAlt(alt, e, STEPS_E_LIM, MIDDLE, lim) <= BisectAlt(alt, d, STEPS_E_LIM, MIDDLE, lim)
  {
    hide BisectAlt, HasPeak;
    var r: int, s: int := BisectAlt(alt, d, STEPS_E_LIM, MIDDLE, lim), BisectAlt(alt, e, STEPS_E_LIM, MIDDLE, lim);
    BisectFinds(alt, d, STEPS_E_LIM, MIDDLE, lim);
    BisectFinds(alt, e, STEPS_E_LIM, MIDDLE, lim);
    assert alt(r, e) < alt(r, d);
    if r < s {
      OnlyLowerAfter(alt, e, lim, r, s);
      OnlyLowerAfter(alt, e, lim, r, s - 1);
    }
  }

  // ---------------------------------------------------------------- what the limits mean

  /** Between the limits (ends included). */
  predicate Inside(alt: Altitude, ha: int, dec: int, lim: real) {
    LimStepsW(alt, dec, lim) <= ha <= LimStepsE(alt, dec, lim)
  }

  /** One of the two steps at which the bisection ended. */
  predicate AtEnd(alt: Altitude, ha: int, dec: int, lim: real) {
    ha == LimStepsW(alt, dec, lim) || ha == LimStepsE(alt, dec, lim)
  }

  /** A row that rises: nothing is accepted if the middle is below the limit; else exactly what is at or above the
      limit, and the end step of the bisection on either side. */
  lemma RisingRowExactly(alt: Altitude, ha: int, dec: int, lim: real)
    requires HasPeak(alt, dec) && alt(STEPS_E_LIM, dec) < alt(MIDDLE, dec) && 0 <= ha <= STEPS_E_LIM
    ensures Inside(alt, ha, dec, lim) <==> lim <= alt(MIDDLE, dec) && (alt(ha, dec) >= lim || AtEnd(alt, ha, dec, lim))
  {
    assert alt(0, dec) < alt(MIDDLE, dec);
    if lim <= alt(MIDDLE, dec) {
      if ha <= MIDDLE {
        WestSide(alt, ha, dec, lim);
      } else {
        EastSide(alt, ha, dec, lim);
      }
    }
  }

  lemma WestSide(alt: Altitude, ha: int, dec: int, lim: real)
    requires HasPeak(alt, dec) && lim <= alt(MIDDLE, dec) && 0 <= ha <= MIDDLE
    requires alt(STEPS_E_LIM, dec) < alt(MIDDLE, dec)
    ensures LimStepsW(alt, dec, lim) <= MIDDLE <= LimStepsE(alt, dec, lim)
    ensures LimStepsW(alt, dec, lim) <= ha <==> alt(ha, dec) >= lim || ha == LimStepsW(alt, dec, lim)
    ensures ha == MIDDLE ==> alt(ha, dec) >= lim
  {
    assert alt(0, dec) < alt(MIDDLE, dec);
    if alt(0, dec) <= lim {
      WestEnd(alt, ha, dec, lim, BisectAlt(alt, dec, 0, MIDDLE, lim));
    } else {
      assert 0 < ha ==> alt(0, dec) < alt(ha, dec);
    }
  }

  lemma WestEnd(alt: Altitude, ha: int, dec: int, lim: real, w: int)
    requires HasPeak(alt, dec) && alt(0, dec) <= lim <= alt(MIDDLE, dec) && 0 <= ha <= MIDDLE
    requires w == BisectAlt(alt, dec, 0, MIDDLE, lim)
    ensures w <= ha <==> alt(ha, dec) >= lim || ha == w
  {
    BisectFinds(alt, dec, 0, MIDDLE, lim);
    assert w + 1 < ha ==> alt(w + 1, dec) < alt(ha, dec);
    assert w < ha ==> alt(w, dec) < alt(ha, dec);
    assert ha < w ==> alt(ha, dec) < alt(w, dec);
  }

  lemma EastSide(alt: Altitude, ha: int, dec: int, lim: real)
    requires HasPeak(alt, dec) && lim <= alt(MIDDLE, dec) && MIDDLE < ha <= STEPS_E_LIM
    requires alt(STEPS_E_LIM, dec) < alt(MIDDLE, dec)
    ensures LimStepsW(alt, dec, lim) <= MIDDLE
    ensures ha <= LimStepsE(alt, dec, lim) <==> alt(ha, dec) >= lim || ha == LimStepsE(alt, dec, lim)
  {
    assert alt(0, dec) < alt(MIDDLE, dec);
    if alt(STEPS_E_LIM, dec) <= lim {
      EastEnd(alt, ha, dec, lim, BisectAlt(alt, dec, STEPS_E_LIM, MIDDLE, lim));
    } else if alt(ha, dec) < lim {
      OnlyLowerAfter(alt, dec, lim, ha, STEPS_E_LIM);
    }
  }

  lemma EastEnd(alt: Altitude, ha: int, dec: int, lim: real, e: int)
    requires HasPeak(alt, dec) && alt(STEPS_E_LIM, dec) <= lim <= alt(MIDDLE, dec) && MIDDLE < ha <= STEPS_E_LIM
    requires e == BisectAlt(alt, dec, STEPS_E_LIM, MIDDLE, lim)
    ensures ha <= e <==> alt(ha, dec) >= lim || ha == e
  {
    hide BisectAlt, HasPeak;
    BisectFinds(alt, dec, STEPS_E_LIM, MIDDLE, lim);
    if e < ha {
      LowAfterEnd(alt, ha, dec, lim, e);
    } else if ha < e && alt(ha, dec) < lim {
      OnlyLowerAfter(alt, dec, lim, ha, e);
      OnlyLowerAfter(alt, dec, lim, ha, e - 1);
    }
  }

  lemma LowAfterEnd(alt: Altitude, ha: int, dec: int, lim: real, e: int)
    requires HasPeak(alt, dec) && alt(e, dec) <= lim <= alt(MIDDLE, dec) && MIDDLE < e < ha <= STEPS_E_LIM
    ensures alt(ha, dec) < lim
  {
    var peak :| RisesTo(alt, dec, peak);
    assert e <= peak ==> alt(MIDDLE, dec) < alt(e, dec);
    assert peak <= e ==> alt(e, dec) > alt(ha, dec);
  }

  /** A row that dips: all of it is accepted if both ends are above the limit, else only such an end itself. */
  lemma DippingRowExactly(alt: Altitude, ha: int, dec: int, valley: int, lim: real)
    requires DipsTo(alt, dec, valley) && alt(STEPS_E_LIM, dec) > alt(MIDDLE, dec) && 0 <= ha <= STEPS_E_LIM
    ensures Inside(alt, ha, dec, lim) <==>
            || (alt(0, dec) > lim && alt(STEPS_E_LIM, dec) > lim)
            || (ha == 0 && alt(0, dec) > lim) || (ha == STEPS_E_LIM && alt(STEPS_E_LIM, dec) > lim)
  {
    assert alt(0, dec) > alt(MIDDLE, dec);
  }

  /** A row without rise or fall, at the pole: all or nothing, and nothing if it is at the limit. */
  lemma FlatRowExactly(alt: Altitude, ha: int, dec: int, lim: real)
    requires Flat(alt, dec) && 0 <= ha <= STEPS_E_LIM
    ensures Inside(alt, ha, dec, lim) <==> alt(ha, dec) > lim
  {
    assert alt(0, dec) == alt(ha, dec) == alt(MIDDLE, dec) == alt(STEPS_E_LIM, dec);
  }

  // ---------------------------------------------------------------- the tables

  predicate Limited(alt: Altitude, dec: int, lim: real) {
    LimStepsW(alt, dec, lim) > 0 || LimStepsE(alt, dec, lim) < STEPS_E_LIM
  }

  /** The table file holds the limits from the first limited declination on. */
  ghost predicate IsTableOf(t: Limits, alt: Altitude, lim: real) {
    && Valid(t) && t.minDec < STEPS_N_LIM
    && (forall i :: 0 <= i < |t.west| ==> t.west[i] == LimStepsW(alt, t.minDec + i, lim))
    && (forall i :: 0 <= i < |t.east| ==> t.east[i] == LimStepsE(alt, t.minDec + i, lim))
    && Limited(alt, t.minDec, lim)
    && (forall dec :: 0 <= dec < t.minDec ==> !Limited(alt, dec, lim))
  }

  /** Fills both tables declination by declination. No table if no declination is limited:
      the program then reads in front of its arrays. */
  method GenerateTables(alt: Altitude, lim: real) returns (t: Option<Limits>)
    ensures t.Some? ==> IsTableOf(t.value, alt, lim)
    ensures t.None? <==> forall dec :: 0 <= dec < STEPS_N_LIM ==> !Limited(alt, dec, lim)
  {
    var limW, limE := new int[STEPS_N_LIM], new int[STEPS_N_LIM];
    var startIdx := -1;
    for i := 0 to STEPS_N_LIM
      invariant forall k :: 0 <= k < i ==> limW[k] == LimStepsW(alt, k, lim) && limE[k] == LimStepsE(alt, k, lim)
      invariant -1 <= startIdx < i
      invariant startIdx >= 0 ==> Limited(alt, startIdx, lim)
      invariant forall dec :: 0 <= dec < (if startIdx >= 0 then startIdx else i) ==> !Limited(alt, dec, lim)
    {
      limW[i] := LimStepsW(alt, i, lim);
      limE[i] := LimStepsE(alt, i, lim);
      if (limW[i] > 0 || limE[i] < STEPS_E_LIM) && startIdx < 0 {
        startIdx := i;
      }
    }
    if startIdx < 0 {
      return None;
    }
    t := Some(Limits(startIdx, limW[startIdx..], limE[startIdx..]));
  }

  /** Generated tables have the shape the planner relies on. */
  lemma GeneratedTablesAreNested(t: Limits, alt: Altitude, lim: real)
    requires IsTableOf(t, alt, lim) && RegularFrom(alt, t.minDec)
    ensures Nested(t)
  {
    hide BisectAlt, HasPeak, LowerAt;
    forall i, j | 0 <= i <= j < |t.west|
      ensures t.west[i] <= t.west[j] && t.east[j] <= t.east[i]
    {
      WestLimitGrows(alt, t.minDec + i, t.minDec + j, lim);
      EastLimitShrinks(alt, t.minDec + i, t.minDec + j, lim);
    }
  }

  /** With the program's formula, it is enough that the cosine of the declination is positive from there on, and the
      altitude falls with declination at the meridian and at both ends of the range. */
  lemma SkyTablesAreNested(t: Limits, alt: Altitude, sky: Sky, lim: real)
    requires IsTableOf(t, alt, lim) && ValidSky(sky) && IsAltitudeOf(alt, sky)
    requires forall dec :: t.minDec <= dec < STEPS_N_LIM ==> sky.scale(dec) > 0.0
    requires forall d, e :: t.minDec <= d < e < STEPS_N_LIM ==> LowerAtThree(alt, sky.peak, d, e)
    ensures Nested(t)
  {
    forall dec | t.minDec <= dec < STEPS_N_LIM ensures HasPeak(alt, dec) {
      RowsRise(alt, sky, dec);
    }
    forall d, e | t.minDec <= d < e < STEPS_N_LIM ensures LowerAt(alt, d, e) {
      LowerExactly(alt, sky, d, e);
    }
    GeneratedTablesAreNested(t, alt, lim);
  }

  /** On the telescope's whole range the driver's look-up is the comparison with the limits, also in the rows that the
      table does not hold. */
  lemma LookupIsInside(t: Limits, alt: Altitude, lim: real, ha: int, dec: int)
    requires IsTableOf(t, alt, lim) && 0 <= ha <= STEPS_E_LIM && 0 <= dec < STEPS_N_LIM
    ensures Clear(t, ha, dec) <==> Inside(alt, ha, dec, lim)
  {
    ClearMeans(t, ha, dec);
    if dec < t.minDec {
      assert !Limited(alt, dec, lim);
    } else {
      assert t.west[dec - t.minDec] == LimStepsW(alt, dec, lim);
      assert t.east[dec - t.minDec] == LimStepsE(alt, dec, lim);
    }
  }

  /** The positions that the program's tables clear, for every declination of the range. */
  predicate Cleared(alt: Altitude, sky: Sky, lim: real, ha: int, dec: int) {
    if sky.scale(dec) > 0.0 then lim <= alt(MIDDLE, dec) && (alt(ha, dec) >= lim || AtEnd(alt, ha, dec, lim))
    else if sky.scale(dec) < 0.0 then
      || (alt(0, dec) > lim && alt(STEPS_E_LIM, dec) > lim)
      || (ha == 0 && alt(0, dec) > lim) || (ha == STEPS_E_LIM && alt(STEPS_E_LIM, dec) > lim)
    else alt(ha, dec) > lim
  }

  lemma TableLookupExactly(t: Limits, alt: Altitude, sky: Sky, lim: real, ha: int, dec: int)
    requires IsTableOf(t, alt, lim) && ValidSky(sky) && IsAltitudeOf(alt, sky)
    requires 0 <= ha <= STEPS_E_LIM && 0 <= dec < STEPS_N_LIM
    ensures Clear(t, ha, dec) <==> Cleared(alt, sky, lim, ha, dec)
  {
    LookupIsInside(t, alt, lim, ha, dec);
    hide LimStepsW, LimStepsE, Inside, AtEnd;
    if sky.scale(dec) > 0.0 {
      RowsRise(alt, sky, dec);
      RisingRowExactly(alt, ha, dec, lim);
    } else if sky.scale(dec) < 0.0 {
      RowsDip(alt, sky, dec);
      DippingRowExactly(alt, ha, dec, sky.peak, lim);
    } else {
      RowsAreFlat(alt, sky, dec);
      FlatRowExactly(alt, ha, dec, lim);
    }
  }

  /** The look-up decides the altitude north of the pole, wherever the middle of the row is not below the limit. */
  lemma TableLookupDecidesAltitude(t: Limits, alt: Altitude, sky: Sky, lim: real, ha: int, dec: int)
    requires IsTableOf(t, alt, lim) && ValidSky(sky) && IsAltitudeOf(alt, sky)
    requires 0 <= ha <= STEPS_E_LIM && 0 <= dec < STEPS_N_LIM
    requires sky.scale(dec) > 0.0 && lim <= alt(MIDDLE, dec)
    ensures !Clear(t, ha, dec) ==> alt(ha, dec) < lim
    ensures Clear(t, ha, dec) ==> alt(ha, dec) >= lim || AtEnd(alt, ha, dec, lim)
  {
    TableLookupExactly(t, alt, sky, lim, ha, dec);
    hide AtEnd, Clear;
  }

  /** The refused positions that are at or above the limit: north of the pole those of rows with the middle below the
      limit. The program looks for the limits from the middle, and the peak is east of it. */
  lemma HighButRefusedExactly(t: Limits, alt: Altitude, sky: Sky, lim: real, ha: int, dec: int)
    requires IsTableOf(t, alt, lim) && ValidSky(sky) && IsAltitudeOf(alt, sky)
    requires 0 <= ha <= STEPS_E_LIM && 0 <= dec < STEPS_N_LIM && sky.scale(dec) > 0.0
    ensures !Clear(t, ha, dec) && alt(ha, dec) >= lim <==> alt(MIDDLE, dec) < lim <= alt(ha, dec)
  {
    TableLookupExactly(t, alt, sky, lim, ha, dec);
    hide AtEnd, Clear;
  }

  /** The cleared positions that are below the limit: north of the pole no more than the two end steps of the bisection;
      beyond it all such positions of rows with both ends above the limit. */
  lemma LowButClearedExactly(t: Limits, alt: Altitude, sky: Sky, lim: real, ha: int, dec: int)
    requires IsTableOf(t, alt, lim) && ValidSky(sky) && IsAltitudeOf(alt, sky)
    requires 0 <= ha <= STEPS_E_LIM && 0 <= dec < STEPS_N_LIM
    ensures Clear(t, ha, dec) && alt(ha, dec) < lim <==>
            alt(ha, dec) < lim &&
            if sky.scale(dec) > 0.0 then lim <= alt(MIDDLE, dec) && AtEnd(alt, ha, dec, lim)
            else sky.scale(dec) < 0.0 && alt(0, dec) > lim && alt(STEPS_E_LIM, dec) > lim
  {
    TableLookupExactly(t, alt, sky, lim, ha, dec);
    hide AtEnd, Clear;
  }

  /** The step of the meridian. */
  const MERIDIAN := 582696

  /** A row that falls by one for every step from the meridian, and one that rises so. */
  function Hill(ha: int, dec: int): real {
    -(Abs(ha - MERIDIAN) as real)
  }

  function Dip(ha: int, dec: int): real {
    Abs(ha - MERIDIAN) as real
  }

  lemma HillRises(dec: int)
    ensures RisesTo(Hill, dec, MERIDIAN)
  {
    forall a: int, b: int
      ensures 0 <= a < b <= MERIDIAN ==> Hill(a, dec) < Hill(b, dec)
      ensures MERIDIAN <= a < b <= STEPS_E_LIM ==> Hill(a, dec) > Hill(b, dec)
    {
    }
  }

  lemma DipDips(dec: int)
    ensures DipsTo(Dip, dec, MERIDIAN)
  {
    forall a: int, b: int
      ensures 0 <= a < b <= MERIDIAN ==> Dip(a, dec) > Dip(b, dec)
      ensures MERIDIAN <= a < b <= STEPS_E_LIM ==> Dip(a, dec) < Dip(b, dec)
    {
    }
  }

  /** They are altitudes by the formula, with positive and with negative scale. */
  function SkyOf(scale: real): Sky {
    Sky((x: real) => x, (dec: int) => 0.0, (dec: int) => scale, (ha: int) => Hill(ha, 0), MERIDIAN)
  }

  lemma HillAndDipAreSkies()
    ensures ValidSky(SkyOf(1.0)) && IsAltitudeOf(Hill, SkyOf(1.0))
    ensures ValidSky(SkyOf(-1.0)) && IsAltitudeOf(Dip, SkyOf(-1.0))
  {
    hide SkyOf, SineAt, ValidSky, Hill, Dip;
    SkyOfIsValid(1.0);
    SkyOfIsValid(-1.0);
    forall ha: int, dec: int
      ensures Hill(ha, dec) == SkyOf(1.0).lift(SineAt(SkyOf(1.0), ha, dec))
      ensures Dip(ha, dec) == SkyOf(-1.0).lift(SineAt(SkyOf(-1.0), ha, dec))
    {
      AltitudeInSky(1.0, ha, dec);
      AltitudeInSky(-1.0, ha, dec);
      DipIsMinusHill(ha, dec);
    }
  }

  lemma AltitudeInSky(scale: real, ha: int, dec: int)
    ensures SkyOf(scale).lift(SineAt(SkyOf(scale), ha, dec)) == scale * Hill(ha, 0)
  {
  }

  lemma DipIsMinusHill(ha: int, dec: int)
    ensures Hill(ha, dec) == 1.0 * Hill(ha, 0) && Dip(ha, dec) == -1.0 * Hill(ha, 0)
  {
  }

  lemma SkyOfIsValid(scale: real)
    ensures ValidSky(SkyOf(scale))
  {
    var sky := SkyOf(scale);
    HillRises(0);
    forall a: int ensures sky.turn(a) == Hill(a, 0) {
    }
    assert forall x: real, y: real :: x < y ==> sky.lift(x) < sky.lift(y);
  }

  /** Both happen. A row whose peak is above the limit and whose middle is not is refused as a whole. */
  lemma AHighRowIsRefused(ha: int)
    requires 0 <= ha <= STEPS_E_LIM
    ensures RisesTo(Hill, 0, MERIDIAN) && Hill(MERIDIAN, 0) >= -4000.0 && !Inside(Hill, ha, 0, -4000.0)
  {
    HillRises(0);
    assert HasPeak(Hill, 0);
    assert Hill(MIDDLE, 0) == -4708.0 && Hill(STEPS_E_LIM, 0) == -573280.0;
    hide Inside, RisesTo, HasPeak;
    RisingRowExactly(Hill, ha, 0, -4000.0);
  }

  /** And a row that dips below the limit between two high ends is accepted as a whole. */
  lemma ALowDipIsCleared(ha: int)
    requires 0 <= ha <= STEPS_E_LIM
    ensures DipsTo(Dip, 0, MERIDIAN) && Dip(MERIDIAN, 0) < 4000.0 && Inside(Dip, ha, 0, 4000.0)
  {
    DipDips(0);
    assert Dip(0, 0) == 582696.0 && Dip(MIDDLE, 0) == 4708.0 && Dip(STEPS_E_LIM, 0) == 573280.0;
    hide Inside, DipsTo;
    DippingRowExactly(Dip, ha, 0, MERIDIAN, 4000.0);
  }

  /** From the sky to the planner: with generated tables a goto between cleared positions is always planned. */
  lemma GeneratedTablesPlanEveryGoto(t: Limits, alt: Altitude, sky: Sky, lim: real, p: Pos, targ: Pos)
    requires IsTableOf(t, alt, lim) && ValidSky(sky) && IsAltitudeOf(alt, sky)
    requires forall dec :: t.minDec <= dec < STEPS_N_LIM ==> sky.scale(dec) > 0.0
    requires forall d, e :: t.minDec <= d < e < STEPS_N_LIM ==> LowerAtThree(alt, sky.peak, d, e)
    requires InRange(p) && p.dec < STEPS_N_LIM && Cleared(alt, sky, lim, p.ha, p.dec)
    requires InRange(targ) && targ.dec < STEPS_N_LIM && Cleared(alt, sky, lim, targ.ha, targ.dec)
    ensures CalcDirectionGoto(t, p, targ) != DIR_INVALID
  {
    SkyTablesAreNested(t, alt, sky, lim);
    TableLookupExactly(t, alt, sky, lim, p.ha, p.dec);
    TableLookupExactly(t, alt, sky, lim, targ.ha, targ.dec);
    hide Cleared, CalcDirectionGoto, LowerAtThree, Nested;
    PlannerNeverStuck(t, p, targ);
  }
}
