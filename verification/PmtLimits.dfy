/** What the photomultiplier driver's cut-out sees, in readings and milliseconds: when it closes the shutter, when a
    probe is given up and when it becomes an integration, which samples it judges rightly, and which it cannot judge. */
module PmtLimits {
  import opened Pmt
  import opened PmtRuns

  // ---------------------------------------------------------------- closing the shutter

  lemma CheckCloses(s: State, counts: nat, periodNs: nat)
    requires periodNs > 0
    ensures var over := Rate(counts, periodNs) >= s.limit && s.cur.error & 0x04 == 0;
            Closed(s, counts, periodNs).past.closes == s.past.closes + if over then 1 else 0
  {
    hide Rate;
  }

  /** Every tick: the shutter is closed once for a reading at or above the limit, unless the last one already was. */
  lemma ClosesExactly(s: State, unit: int, ms: int, reading: nat)
    requires Inv(s)
    ensures var over := OverOnTick(s, reading) && s.cur.error & 0x04 == 0;
            Tick(s, unit, ms, reading).past.closes == s.past.closes + if over then 1 else 0
  {
    if s.probe {
      ProbeEndsOrGoesOn(s, unit, ms, reading);
      ProbedKeeps(s, unit, ms, reading);
      CheckCloses(s, reading, TICK_NS);
      hide Tick, Probed, Inv, Closed;
    } else if s.busy {
      BusyTickCloses(s, unit, ms, reading);
    } else {
      IdleTickCloses(s, unit, ms, reading);
    }
  }

  lemma IdleTickCloses(s: State, unit: int, ms: int, reading: nat)
    ensures var over := reading * 1000 >= s.limit && s.cur.error & 0x04 == 0;
            IdleTick(s, unit, ms, reading).past.closes == s.past.closes + if over then 1 else 0
  {
    hide CheckCounts;
    CheckCloses(s, reading, TICK_NS);
  }

  lemma BusyTickCloses(s: State, unit: int, ms: int, reading: nat)
    requires Inv(s) && s.busy
    ensures var over := OverOnTick(s, reading) && s.cur.error & 0x04 == 0;
            BusyTick(s, unit, ms, reading).past.closes == s.past.closes + if over then 1 else 0
  {
    hide AddSample, CheckCounts, Has, TicksFor, Accounted;
    NoErrorYet(s.cur.error);
    if SampleDue(s) {
      SampleAdded(s, reading);
    }
  }

  lemma NoErrorYet(error: bv8)
    ensures !Has(error, CRIT) ==> error & 0x04 == 0
  {
  }

  // ---------------------------------------------------------------- the error byte

  /** Bits of the error byte: 4 at or above the limit, 2 at 200000 counts a second or more, 0x10 as it was. */
  predicate Says(e: bv8, before: bv8, rate: nat, limit: nat) {
    (e & 0x04 != 0 <==> rate >= limit) && (e & 0x02 != 0 <==> rate >= 200000) && e & 0x10 == before & 0x10 &&
    e & 0xE9 == 0
  }

  lemma NewErrorSays(before: bv8, rate: nat, limit: nat)
    ensures Says(NewError(before, rate >= limit, rate >= 200000), before, rate, limit)
  {
    BitsOfNewError(before, rate >= limit, rate >= 200000);
    hide NewError;
  }

  lemma BitsOfNewError(before: bv8, over: bool, warn: bool)
    ensures var e := NewError(before, over, warn);
            && (e & 0x04 != 0 <==> over) && (e & 0x02 != 0 <==> warn) && e & 0x10 == before & 0x10 && e & 0xE9 == 0
  {
  }

  /** With no program listening, the error of a millisecond is told as it is. */
  lemma IdleTells(s: State, unit: int, ms: int, reading: nat)
    requires !s.probe && !s.busy
    ensures var t := Tick(s, unit, ms, reading);
            && t.cur.counts == reading && t.cur.startS == unit && t.cur.startMs == ms && !t.probe && !t.busy
            && (s.numOpen == 0 ==> Says(t.cur.error, s.cur.error, reading * 1000, s.limit) &&
                                   (t.err <==> t.cur.error != 0))
  {
    hide NewError, Says;
    RateOfMillisecond(reading);
    NewErrorSays(s.cur.error, reading * 1000, s.limit);
  }

  /** What the driver takes the counts of so many milliseconds to be in a second. */
  function SampleRate(reading: nat, length: nat): nat {
    if length == 0 then 0 else reading * (1000 / length)
  }

  /** What a sample of so many milliseconds is found to be. */
  lemma SampleSays(s: State, reading: nat, length: nat)
    requires length > 0
    ensures Says(CheckCounts(s, reading, length * 1000000), s.cur.error, SampleRate(reading, length), s.limit)
  {
    hide NewError, Says;
    FactorOf(length);
    NewErrorSays(s.cur.error, reading * (1000 / length), s.limit);
  }

  // ---------------------------------------------------------------- the limit

  /** A program's limit is taken up to 700000 counts a second; above that it becomes 200000, as when loading and when
      the last program is gone. */
  lemma LimitsAreBounded(reading: nat, es: seq<Event>)
    ensures Run(Boot(reading), es).limit <= 700000
  {
    LimitStays(Boot(reading), es);
  }

  lemma {:induction false} LimitStays(s: State, es: seq<Event>)
    requires s.limit <= 700000
    ensures Run(s, es).limit <= 700000
    decreases |es|
  {
    if es != [] {
      LimitAfter(s, es[0]);
      hide Step;
      LimitStays(Step(s, es[0]), es[1..]);
    }
  }

  lemma LimitAfter(s: State, e: Event)
    ensures var t := Step(s, e);
            t.limit == (if e.LimitEvent? then if e.value <= 700000 then e.value else 200000
                        else if e.ReleaseEvent? && (s.numOpen + 255) % 256 == 0 then 200000 else s.limit)
  {
    hide Tick, SlotHolder, OrderReply;
    if e.TickEvent? {
      TickKeepsLimit(s, e.unit, e.ms, e.reading);
    }
  }

  lemma TickKeepsLimit(s: State, unit: int, ms: int, reading: nat)
    ensures Tick(s, unit, ms, reading).limit == s.limit
  {
    hide ProbeTick, BusyTick, IdleTick;
    ProbeTickKeepsLimit(s, unit, ms, reading);
    BusyTickKeepsLimit(s, unit, ms, reading);
    IdleTickKeepsLimit(s, unit, ms, reading);
  }

  lemma ProbeTickKeepsLimit(s: State, unit: int, ms: int, reading: nat)
    ensures ProbeTick(s, unit, ms, reading).limit == s.limit
  {
    hide CheckCounts, Rate, Has;
  }

  lemma BusyTickKeepsLimit(s: State, unit: int, ms: int, reading: nat)
    ensures BusyTick(s, unit, ms, reading).limit == s.limit
  {
    hide CheckCounts, Rate, Has, SampleDue, AddSample;
    SampleKeepsLimit(s.(past := s.past.(ticks := s.past.ticks + 1)), reading);
  }

  lemma SampleKeepsLimit(s: State, reading: nat)
    ensures AddSample(s, reading).limit == s.limit
  {
    hide CheckCounts, Rate, Has;
  }

  lemma IdleTickKeepsLimit(s: State, unit: int, ms: int, reading: nat)
    ensures IdleTick(s, unit, ms, reading).limit == s.limit
  {
    hide CheckCounts, Rate, Has;
  }

  // ---------------------------------------------------------------- samples that are judged rightly

  /** So many counts in so many milliseconds are at least so many a second. */
  predicate Bright(reading: nat, length: nat, limit: nat) {
    reading * 1000 >= limit * length
  }

  lemma Monotone(a: int, b: int, c: nat)
    requires a <= b
    ensures a * c <= b * c
  {
  }

  /** Nothing is cut off that is not bright. */
  lemma CutOffIsBright(reading: nat, length: nat, limit: nat)
    requires length > 0 && reading * (1000 / length) >= limit
    ensures Bright(reading, length, limit)
  {
    var q := 1000 / length;
    Monotone(limit, reading * q, length);
    assert reading * q * length == reading * (q * length);
    Monotone(q * length, 1000, reading);
  }

  lemma WholeFactor(reading: nat, length: nat, limit: nat)
    requires length > 0 && 1000 % length == 0 && Bright(reading, length, limit)
    ensures reading * (1000 / length) >= limit
  {
    var q := 1000 / length;
    assert reading * 1000 == (reading * q) * length by {
      assert 1000 == q * length;
      assert reading * (q * length) == (reading * q) * length;
    }
    assert (reading * q + 1) * length == reading * q * length + length;
    if reading * q < limit {
      Monotone(reading * q + 1, limit, length);
    }
  }

  /** Samples of a length are judged rightly, at every limit, exactly if the length divides a second. */
  lemma JudgedRightlyExactly(length: nat)
    requires length > 0
    ensures (forall reading: nat, limit: nat :: Bright(reading, length, limit) ==> reading * (1000 / length) >= limit)
            <==> 1000 % length == 0
  {
    if 1000 % length == 0 {
      forall reading: nat, limit: nat | Bright(reading, length, limit) ensures reading * (1000 / length) >= limit {
        WholeFactor(reading, length, limit);
      }
    } else {
      assert Bright(length, length, 1000);
      assert length * (1000 / length) + 1000 % length == 1000;
      assert length * (1000 / length) < 1000;
    }
  }

  /** The fewest counts that are bright. */
  function LeastBright(length: nat, limit: nat): nat {
    (limit * length + 999) / 1000
  }

  lemma LeastBrightIsLeast(reading: nat, length: nat, limit: nat)
    ensures Bright(reading, length, limit) <==> reading >= LeastBright(length, limit)
  {
    assert limit * length >= 0;
  }

  /** At one limit, exactly if the fewest counts that are bright are cut off. */
  lemma JudgedRightlyAtExactly(length: nat, limit: nat)
    requires length > 0
    ensures (forall reading: nat :: Bright(reading, length, limit) ==> reading * (1000 / length) >= limit)
            <==> LeastBright(length, limit) * (1000 / length) >= limit
  {
    var least, q := LeastBright(length, limit), 1000 / length;
    LeastBrightIsLeast(least, length, limit);
    if least * q >= limit {
      forall reading: nat | Bright(reading, length, limit) ensures reading * q >= limit {
        LeastBrightIsLeast(reading, length, limit);
        Monotone(least, reading, q);
      }
    } else {
      assert Bright(least, length, limit);
    }
  }

  /** A due sample: if its length divides a second, the shutter is closed exactly for a bright one. */
  lemma DueSampleClosesExactly(s: State, unit: int, ms: int, reading: nat)
    requires Inv(s) && s.busy && SampleDue(s) && s.cmd.length > 0 && 1000 % s.cmd.length == 0
    ensures var t := Tick(s, unit, ms, reading);
            && t.past.closes == s.past.closes + (if Bright(reading, s.cmd.length, s.limit) then 1 else 0)
            && (Bright(reading, s.cmd.length, s.limit) ==> !t.busy && !t.probe)
  {
    hide Tick, Bright, Inv;
    ClosesExactly(s, unit, ms, reading);
    BusyHasNoError(s);
    if Bright(reading, s.cmd.length, s.limit) {
      WholeFactor(reading, s.cmd.length, s.limit);
      CutOut(s, unit, ms, reading);
    } else if OverOnTick(s, reading) {
      CutOffIsBright(reading, s.cmd.length, s.limit);
    }
  }

  lemma BusyHasNoError(s: State)
    requires Inv(s) && s.busy
    ensures s.cur.error & 0x04 == 0 && !s.probe
  {
    NoErrorYet(s.cur.error);
  }

  // ---------------------------------------------------------------- samples of more than a second

  /** No sample of more than a second is cut off, whatever its reading, unless the limit is 0. */
  lemma LongSamplesAreNotSeen(s: State, reading: nat)
    requires Inv(s) && s.busy && s.cmd.length > 1000
    ensures OverOnTick(s, reading) <==> SampleDue(s) && s.limit == 0
  {
    assert 1000 / s.cmd.length == 0;
    assert reading * 0 == 0;
  }

  /** Nobody cancels, sets the limit to 0, or closes the device. */
  predicate LetsBe(e: Event) {
    (e.OrderEvent? ==> e.cmd.mode != 0) && (e.LimitEvent? ==> e.value > 0) && !e.ReleaseEvent?
  }

  lemma LongSamplesGoOn(s: State, e: Event)
    requires Inv(s) && s.busy && s.cmd.length > 1000 && s.limit > 0 && LetsBe(e)
    ensures Uninterrupted(s, e) && Step(s, e).limit > 0 && Step(s, e).past.closes == s.past.closes
  {
    hide Tick, Inv, OverOnTick, SampleDue, SlotHolder;
    LimitAfter(s, e);
    if e.TickEvent? {
      LongSamplesAreNotSeen(s, e.reading);
      ClosesExactly(s, e.unit, e.ms, e.reading);
    } else if e.OrderEvent? {
      BusyHasNoError(s);
    }
  }

  lemma {:induction false} LongIntegrationsAreNotCutOff(s: State, es: seq<Event>)
    requires Inv(s) && JustStarted(s) && s.cmd.length > 1000 && s.limit > 0 && forall e :: e in es ==> LetsBe(e)
    requires es != [] ==> |Readings(es[..|es| - 1])| < TicksInAll(s.cmd)
    ensures UninterruptedRun(s, es) && Run(s, es).limit > 0 && Run(s, es).past.closes == s.past.closes
    decreases |es|
  {
    hide Step, Uninterrupted, TicksInAll, LetsBe, Inv;
    if es != [] {
      var before, e := es[..|es| - 1], es[|es| - 1];
      if before != [] {
        FewerReadings(before);
      }
      LongIntegrationsAreNotCutOff(s, before);
      IntegrationRuns(s, before);
      RunEnds(s, es);
      LongSamplesGoOn(Run(s, before), e);
    }
  }

  lemma FewerReadings(es: seq<Event>)
    requires es != []
    ensures |Readings(es[..|es| - 1])| <= |Readings(es)|
  {
  }

  // ---------------------------------------------------------------- a dazzled integration

  const FIRST: seq<Event> :=
    [OrderEvent(Cmd(1, 1001, 1, 1)), TickEvent(0, 0, 0), TickEvent(0, 0, 0), TickEvent(0, 0, 0)]

  /** One sample of 1001 ms, ordered and probed in the dark. */
  lemma FirstStarts()
    ensures var s := Run(Boot(0), FIRST);
            && Inv(s) && JustStarted(s) && s.cmd == Cmd(1, 1001, 1, 1) && s.limit == 200000 && s.past.closes == 0
  {
    RunKeeps(Boot(0), FIRST);
    hide Inv;
    var a := Step(Boot(0), FIRST[0]);
    var b := Step(a, FIRST[1]);
    var c := Step(b, FIRST[2]);
    var d := Step(c, FIRST[3]);
    assert FIRST[1..][1..][1..][1..] == [];
    assert FIRST[1..][0] == FIRST[1] && FIRST[1..][1..][0] == FIRST[2] && FIRST[1..][1..][1..][0] == FIRST[3];
    assert Run(Boot(0), FIRST) == Run(a, FIRST[1..]) == Run(b, FIRST[1..][1..]) == Run(c, FIRST[1..][1..][1..]) == d;
  }

  function Glare(n: nat, reading: nat): seq<Event> {
    if n == 0 then [] else Glare(n - 1, reading) + [TickEvent(0, 0, reading)]
  }

  lemma {:induction false} GlareReads(n: nat, reading: nat)
    ensures |Readings(Glare(n, reading))| == n == |Glare(n, reading)|
    ensures forall e :: e in Glare(n, reading) ==> LetsBe(e)
    ensures n > 0 ==> Glare(n, reading)[..n - 1] == Glare(n - 1, reading)
    ensures n > 0 ==> Readings(Glare(n, reading))[n - 1] == reading
  {
    if n > 0 {
      GlareReads(n - 1, reading);
      var es := Glare(n, reading);
      assert es[..n - 1] == Glare(n - 1, reading) && es[n - 1] == TickEvent(0, 0, reading);
    }
  }

  lemma {:induction false} OneSample(rs: seq<nat>, length: nat)
    requires 0 < length && |rs| <= length
    ensures Sampled(rs, length) == if |rs| < length then [] else [rs[length - 1]]
    decreases |rs|
  {
    if rs != [] {
      OneSample(rs[..|rs| - 1], length);
      if |rs| < length {
        DivisionIsUnique(|rs|, length, 0, |rs|);
      } else {
        DivisionIsUnique(|rs|, length, 1, 0);
      }
    }
  }

  /** However bright the light falls in after the probe, the integration of one sample of 1001 ms runs to its end and
      the shutter stays open. */
  lemma DazzledToTheEnd(reading: nat)
    ensures var t := Run(Run(Boot(0), FIRST), Glare(1001, reading));
            !t.busy && |t.stored| == 1 && t.stored[0].counts == reading && t.past.closes == 0
  {
    hide Run, Readings, UninterruptedRun, Inv, Sampled, LetsBe;
    FirstStarts();
    GlareReads(1000, reading);
    GlareReads(1001, reading);
    var s, es := Run(Boot(0), FIRST), Glare(1001, reading);
    OneSample(Readings(es), 1001);
    LongIntegrationsAreNotCutOff(s, es);
    CompleteIntegration(s, es);
    OneBin(Run(s, es), reading);
  }

  lemma OneBin(t: State, reading: nat)
    requires |t.past.bins| == |t.stored| == 1 && Flatten(t.past.bins) == [reading]
    requires t.stored[0].counts == Sum(t.past.bins[0])
    ensures t.stored[0].counts == reading
  {
    assert t.past.bins == [] + [t.past.bins[0]];
    FlattenAppend([], t.past.bins[0]);
    assert [reading] == [] + [reading];
    SumAppend([], reading);
    assert t.past.bins[0] == [reading];
  }

  // ---------------------------------------------------------------- the probe

  /** No critical error is left unread: neither of zero counts, nor of too much light, nor of an overflow. */
  predicate Unblemished(s: State) {
    !s.err || s.cur.error & 0x0D == 0
  }

  /** A millisecond's reading at or above the limit, or one that would fill the counter in the ordered sample. */
  predicate Objectionable(s: State, reading: nat) {
    reading * 1000 >= s.limit || reading * s.cmd.length >= 60000
  }

  lemma ProbeErrorSays(s: State, reading: nat)
    ensures ProbeError(s, reading) & 0x0D != 0 <==> Objectionable(s, reading)
  {
    hide NewError;
    RateOfMillisecond(reading);
    BitsOfNewError(s.cur.error, reading * 1000 >= s.limit, reading * 1000 >= WARN_RATE);
    OverflowBits(CheckCounts(s, reading, TICK_NS));
  }

  lemma OverflowBits(e: bv8)
    requires e & 0xE9 == 0
    ensures e & 0x0D == e & 0x04 && (e | ERR_OVERFLOW) & 0x0D != 0
  {
  }

  lemma ErrorsJoin(a: bv8, b: bv8)
    ensures (a | b) & 0x0D != 0 <==> a & 0x0D != 0 || b & 0x0D != 0
  {
  }

  lemma ProbedError(s: State, unit: int, ms: int, reading: nat)
    ensures var u := Probed(s, unit, ms, reading);
            && (u.cur.error & 0x0D != 0 <==> Objectionable(s, reading) || !Unblemished(s))
            && u.limit == s.limit
  {
    hide ProbeError, Objectionable, Look;
    LookLeavesError(s, unit, ms, reading);
    ProbeErrorSays(s, reading);
    ErrorsJoin(s.cur.error, ProbeError(s, reading));
    NoBitsIn(ProbeError(s, reading));
  }

  lemma LookLeavesError(s: State, unit: int, ms: int, reading: nat)
    ensures var t := Look(s, unit, ms, reading);
            t.err == s.err && t.cur.error == s.cur.error && t.limit == s.limit
  {
    hide Has, Rate;
  }

  lemma NoBitsIn(e: bv8)
    ensures e == 0 ==> e & 0x0D == 0
  {
  }

  /** A probe is given up exactly for an objectionable reading or a critical error not yet read; else it goes on, and
      becomes the integration at the last second it waits for. */
  lemma ProbeIsGivenUpExactly(s: State, unit: int, ms: int, reading: nat)
    requires Inv(s) && s.probe
    ensures var t := Tick(s, unit, ms, reading);
            && (!t.probe && !t.busy <==> Objectionable(s, reading) || !Unblemished(s))
            && (t.busy ==> JustStarted(t) && ms == 0 && s.probeCounter == 1
                           && t.cur.startS == unit && t.cur.startMs == ms)
            && (t.probe ==> Unblemished(t) && t.probeCounter == s.probeCounter - (if ms == 0 then 1 else 0))
            && t.limit == s.limit && t.cmd == s.cmd
  {
    hide Probed, ProbeError, Accounted, Objectionable, Unblemished;
    ProbedError(s, unit, ms, reading);
    ProbedKeeps(s, unit, ms, reading);
    ProbedPlace(s, unit, ms, reading);
    var u := Probed(s, unit, ms, reading);
    UnblemishedNow(u);
    UnblemishedNow(u.(probeCounter := s.probeCounter - 1));
    CriticalBits(u.cur.error);
    hide Has;
  }

  lemma CriticalBits(e: bv8)
    ensures Has(e, CRIT) <==> e & 0x0D != 0
  {
  }

  lemma UnblemishedNow(s: State)
    ensures s.cur.error & 0x0D == 0 ==> Unblemished(s)
  {
  }

  lemma ProbedPlace(s: State, unit: int, ms: int, reading: nat)
    ensures var u := Probed(s, unit, ms, reading);
            u.cur.startS == unit && u.cur.startMs == ms && u.cur.counts == reading
  {
    hide NewError, Rate, ProbeError, CheckCounts;
  }

  function Seconds(es: seq<Event>): nat
    decreases |es|
  {
    if es == [] then 0
    else Seconds(es[..|es| - 1]) + if es[|es| - 1].TickEvent? && es[|es| - 1].ms == 0 then 1 else 0
  }

  /** Milliseconds with nothing to object to. */
  predicate Calm(es: seq<Event>, limit: nat, length: nat) {
    forall e :: e in es ==> e.TickEvent? && e.reading * 1000 < limit && e.reading * length < 60000
  }

  /** An accepted order waits for the third full second, and then integrates as ordered. */
  lemma {:induction false} ProbeLasts(s: State, es: seq<Event>)
    requires Inv(s) && s.probe && s.probeCounter == 3 && Unblemished(s) && Calm(es, s.limit, s.cmd.length)
    requires es != [] ==> Seconds(es[..|es| - 1]) < 3
    ensures var t := Run(s, es);
            && Inv(t) && t.cmd == s.cmd && t.limit == s.limit
            && (t.probe <==> Seconds(es) < 3) && (t.probe ==> t.probeCounter == 3 - Seconds(es) && Unblemished(t))
            && (t.busy <==> Seconds(es) == 3) && (t.busy ==> JustStarted(t))
    decreases |es|
  {
    hide Inv, Tick, Unblemished;
    if es != [] {
      var before, e := es[..|es| - 1], es[|es| - 1];
      if before != [] {
        FewerSeconds(before);
      }
      ProbeLasts(s, before);
      RunEnds(s, es);
      var u := Run(s, before);
      assert e in es && !Objectionable(u, e.reading);
      NotBoth(u);
      TickKeeps(u, e.unit, e.ms, e.reading);
      NotBoth(Tick(u, e.unit, e.ms, e.reading));
      ProbeIsGivenUpExactly(u, e.unit, e.ms, e.reading);
    } else {
      NotBoth(s);
    }
  }

  lemma NotBoth(s: State)
    requires Inv(s)
    ensures !(s.probe && s.busy) && (s.probe ==> 1 <= s.probeCounter <= 3)
  {
  }

  lemma FewerSeconds(es: seq<Event>)
    requires es != []
    ensures Seconds(es[..|es| - 1]) <= Seconds(es)
  {
  }

  // ---------------------------------------------------------------- the times of records

  /** A record says when it began: the first at the tick that ended the probe, the others at the tick that ended the one
      before. */
  lemma RecordsAreTimed(s: State, unit: int, ms: int, reading: nat)
    requires Inv(s) && s.busy
    ensures var t := Tick(s, unit, ms, reading);
            && (t.stored == s.stored ==> t.cur.startS == s.cur.startS && t.cur.startMs == s.cur.startMs)
            && (t.stored != s.stored ==>
                  && |t.stored| == |s.stored| + 1 && t.stored[..|s.stored|] == s.stored
                  && t.stored[|s.stored|].startS == s.cur.startS && t.stored[|s.stored|].startMs == s.cur.startMs
                  && (t.busy ==> t.cur.startS == unit && t.cur.startMs == ms))
  {
    hide AddSample, CheckCounts, Has, Accounted;
    SamplePlace(s.(past := s.past.(ticks := s.past.ticks + 1)), reading);
  }

  lemma SamplePlace(s: State, reading: nat)
    ensures var t := AddSample(s, reading);
            t.cur.startS == s.cur.startS && t.cur.startMs == s.cur.startMs && t.stored == s.stored
  {
    hide CheckCounts, Has;
  }
}
