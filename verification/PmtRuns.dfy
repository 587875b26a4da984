/** What the photomultiplier driver keeps over every run: accounting, duration, the cut-out, and the reader. */
module PmtRuns {
  import opened Pmt

  // ---------------------------------------------------------------- sums

  lemma SumAppend(xs: seq<nat>, x: nat)
    ensures Sum(xs + [x]) == Sum(xs) + x
  {
    assert (xs + [x])[..|xs|] == xs;
  }

  lemma SumOfBinsAppend(bins: seq<seq<nat>>, bin: seq<nat>)
    ensures SumOfBins(bins + [bin]) == SumOfBins(bins) + Sum(bin)
  {
    assert (bins + [bin])[..|bins|] == bins;
  }

  lemma CountsAppend(rs: seq<Integ>, r: Integ)
    ensures CountsOf(rs + [r]) == CountsOf(rs) + r.counts
  {
    assert (rs + [r])[..|rs|] == rs;
  }

  lemma {:induction false} RecordsHoldReadings(rs: seq<Integ>, bins: seq<seq<nat>>, cmd: Cmd)
    requires RecordsMatch(rs, bins, cmd)
    ensures CountsOf(rs) == SumOfBins(bins)
    decreases |rs|
  {
    if rs != [] {
      var n := |rs| - 1;
      assert RecordOf(rs[n], n, bins[n], cmd);
      forall k | 0 <= k < n ensures RecordOf(rs[..n][k], k, bins[..n][k], cmd) {
        assert RecordOf(rs[k], k, bins[k], cmd);
      }
      RecordsHoldReadings(rs[..n], bins[..n], cmd);
    }
  }

  lemma OneMoreSample(cmd: Cmd, records: nat, samples: nat)
    ensures TicksFor(cmd, records, samples + 1) == TicksFor(cmd, records, samples) + cmd.length
    ensures TicksFor(cmd, records + 1, 0) == TicksFor(cmd, records, cmd.prebin)
  {
    assert cmd.length * (cmd.prebin * records + samples + 1)
           == cmd.length * (cmd.prebin * records + samples) + cmd.length;
    assert cmd.prebin * (records + 1) == cmd.prebin * records + cmd.prebin;
  }

  // ---------------------------------------------------------------- one tick of an integration

  /** The tick takes a reading that is over the limit: a millisecond's reading counts a thousandfold, the reading of a
      sample of L milliseconds 1000 / L times, rounded down. */
  predicate OverOnTick(s: State, reading: nat) {
    if s.busy && !s.probe then s.cmd.length > 0 && SampleDue(s) && reading * (1000 / s.cmd.length) >= s.limit
    else reading * 1000 >= s.limit
  }

  lemma WaitingTick(s: State, unit: int, ms: int, reading: nat)
    requires Inv(s) && s.busy && !SampleDue(s)
    ensures var t := Tick(s, unit, ms, reading);
            Inv(t) && t.busy && t.cmd == s.cmd && t.stored == s.stored && t.past == s.past.(ticks := s.past.ticks + 1)
  {
  }

  /** A sample falls due exactly when its length is over. */
  lemma DueExactly(s: State)
    requires Inv(s) && s.busy && SampleDue(s)
    ensures s.cur.period + TICK_NS == s.cmd.length * TICK_NS
    ensures s.past.ticks + 1 == TicksFor(s.cmd, |s.past.bins|, |s.past.part| + 1)
  {
    OneMoreSample(s.cmd, |s.past.bins|, |s.past.part|);
  }

  /** The factor that makes a sample's reading a rate. */
  lemma FactorOf(length: nat)
    requires length > 0
    ensures SECOND_NS / (length * TICK_NS) == 1000 / length
  {
    var q, r := 1000 / length, 1000 % length;
    assert SECOND_NS == (length * TICK_NS) * q + r * TICK_NS by {
      assert 1000 == length * q + r;
      assert (length * q + r) * TICK_NS == (length * TICK_NS) * q + r * TICK_NS;
    }
    QuotientIsUnique(SECOND_NS, length * TICK_NS, q, r * TICK_NS);
  }

  lemma QuotientIsUnique(x: nat, d: nat, q: nat, r: nat)
    requires d > 0 && r < d && x == d * q + r
    ensures x / d == q
  {
    var q' := x / d;
    if q > q' {
      NextMultiple(d, q', q);
    } else if q < q' {
      NextMultiple(d, q, q');
    }
  }

  /** The driver's rate of a due sample. */
  lemma RateOfSample(s: State, reading: nat)
    requires Inv(s) && s.busy && SampleDue(s)
    ensures Rate(reading, s.cur.period + TICK_NS) == reading * (1000 / s.cmd.length)
    ensures OverOnTick(s, reading) <==> Rate(reading, s.cur.period + TICK_NS) >= s.limit
  {
    DueExactly(s);
    FactorOf(s.cmd.length);
  }

  /** And of a millisecond. */
  lemma RateOfMillisecond(reading: nat)
    ensures Rate(reading, TICK_NS) == reading * 1000
  {
  }

  lemma CurrentIsAccounted(s: State)
    requires Inv(s) && s.busy
    ensures !s.probe && s.cur.counts == Sum(s.past.part) && s.cur.prebin == |s.past.part|
    ensures !Has(s.cur.error, CRIT) && !Has(s.cur.error, ERR_OVERILLUM)
  {
    ErrorBits(s.cur.error, 0);
    hide Has;
  }

  lemma JoinedBits(a: bv8, b: bv8)
    ensures Has(Joined(a, b), CRIT) <==> Has(a, CRIT) || Has(b, CRIT)
  {
    ErrorBits(a, b);
    hide Has;
  }

  /** The sample is added to the current record; an over-illuminated one leaves a critical error. */
  lemma SampleAdded(s: State, reading: nat)
    requires Inv(s) && s.busy && SampleDue(s)
    ensures var t := AddSample(s.(past := s.past.(ticks := s.past.ticks + 1)), reading);
            && t.past.part == s.past.part + [reading] && t.cur.counts == Sum(t.past.part)
            && t.cur.prebin == |t.past.part| && t.cur.reps == s.cur.reps && t.stored == s.stored && t.cmd == s.cmd
            && t.past.bins == s.past.bins && t.past.ticks == s.past.ticks + 1 && t.past.delivered == s.past.delivered
            && t.cur.period == s.cmd.length * TICK_NS && t.userIdx == s.userIdx && t.numOpen == s.numOpen
            && (Has(t.cur.error, CRIT) <==> OverOnTick(s, reading))
            && t.past.closes == s.past.closes + (if OverOnTick(s, reading) then 1 else 0)
            && t.busy && !t.probe
  {
    hide Has, NewError, Rate, Joined, Inv, SampleDue, Sum, TicksFor;
    DueExactly(s);
    RateOfSample(s, reading);
    CurrentIsAccounted(s);
    SumAppend(s.past.part, reading);
    var over := Rate(reading, s.cur.period + TICK_NS) >= s.limit;
    var warn := Rate(reading, s.cur.period + TICK_NS) >= WARN_RATE;
    NewErrorMeans(s.cur.error, over, warn);
    JoinedBits(s.cur.error, NewError(s.cur.error, over, warn));
  }

  lemma RecordClosed(s: State, t: State, unit: int, ms: int, e: bv8)
    requires RecordsMatch(s.stored, s.past.bins, s.cmd) && s.cur.reps == |s.stored| < s.cmd.reps
    requires RecordOf(s.cur, |s.stored|, s.past.part, s.cmd) && !Has(e, CRIT)
    requires s.past.ticks == TicksFor(s.cmd, |s.past.bins|, |s.past.part|)
    requires ValidCmd(s.cmd) && s.busy && !s.probe && |s.past.delivered| == s.userIdx <= |s.stored| && s.numOpen < 256
    requires t == CloseRecord(s, unit, ms, e)
    ensures Inv(t)
    ensures RecordsMatch(t.stored, t.past.bins, t.cmd) && |t.stored| == |s.stored| + 1
    ensures t.busy <==> |t.stored| < t.cmd.reps
    ensures t.past.ticks == TicksFor(t.cmd, |t.past.bins|, 0) && t.past.part == [] && t.cmd == s.cmd
    ensures AllReadings(t.past) == AllReadings(s.past)
  {
    OneMoreSample(s.cmd, |s.past.bins|, 0);
    SumOfBinsAppend(s.past.bins, s.past.part);
    forall k | 0 <= k < |t.stored| ensures RecordOf(t.stored[k], k, t.past.bins[k], t.cmd) {
      if k < |s.stored| {
        assert RecordOf(s.stored[k], k, s.past.bins[k], s.cmd);
      }
    }
  }

  /** The effect of a busy tick on the history: the integration goes on, ends complete, or is cut off. */
  predicate Continues(s: State, t: State) {
    t.busy && t.cmd == s.cmd && t.past.ticks == s.past.ticks + 1
  }

  ghost predicate Completed(s: State, t: State) {
    !t.busy && t.cmd == s.cmd && t.past.ticks == s.past.ticks + 1 == TicksFor(s.cmd, s.cmd.reps, 0) &&
    |t.stored| == s.cmd.reps && RecordsMatch(t.stored, t.past.bins, t.cmd) && t.past.part == []
  }

  /** The tick after which the sample of this state has been added. */
  function Added(s: State, reading: nat): State {
    AddSample(s.(past := s.past.(ticks := s.past.ticks + 1)), reading)
  }

  /** Ending an integration early keeps all readings: its last, partial record is stored. */
  lemma CancelKeepsReadings(s: State)
    requires RecordsMatch(s.stored, s.past.bins, s.cmd) && s.cur.counts == Sum(s.past.part)
    ensures CountsOf(CancelInteg(s).stored) == AllReadings(s.past) == AllReadings(CancelInteg(s).past)
  {
    RecordsHoldReadings(s.stored, s.past.bins, s.cmd);
    CountsAppend(s.stored, s.cur);
  }

  /** A user's cancellation too: stored counts, the partial record included, equal all readings taken. */
  lemma CancelledIntegration(s: State, cmd: Cmd)
    requires Inv(s) && s.busy && cmd.mode == 0
    ensures var t := OrderInteg(s, cmd);
            !t.busy && !t.probe && |t.stored| == |s.stored| + 1
            && CountsOf(t.stored) == AllReadings(s.past) == AllReadings(t.past)
  {
    CancelKeepsReadings(s);
  }

  lemma CutOffTick(s: State, unit: int, ms: int, reading: nat)
    requires Inv(s) && s.busy && SampleDue(s) && OverOnTick(s, reading)
    ensures var t := Tick(s, unit, ms, reading);
            && Inv(t) && !t.busy && !t.probe && t.past.closes == s.past.closes + 1
            && AllReadings(t.past) == AllReadings(s.past) + reading == CountsOf(t.stored)
  {
    hide AddSample, OverOnTick, SampleDue, CheckCounts, RecordsMatch, Has, TicksFor;
    SampleAdded(s, reading);
    SumAppend(s.past.part, reading);
    CancelKeepsReadings(Added(s, reading));
  }

  lemma ContinuingTick(s: State, unit: int, ms: int, reading: nat)
    requires Inv(s) && s.busy && SampleDue(s) && !OverOnTick(s, reading) && |s.past.part| + 1 < s.cmd.prebin
    ensures var t := Tick(s, unit, ms, reading);
            && Inv(t) && Continues(s, t)
            && AllReadings(t.past) == AllReadings(s.past) + reading == CountsOf(t.stored) + t.cur.counts
  {
    hide AddSample, OverOnTick, SampleDue, CheckCounts, TicksFor;
    SampleAdded(s, reading);
    DueExactly(s);
    SumAppend(s.past.part, reading);
    RecordsHoldReadings(s.stored, s.past.bins, s.cmd);
  }

  lemma ClosingTick(s: State, unit: int, ms: int, reading: nat)
    requires Inv(s) && s.busy && SampleDue(s) && !OverOnTick(s, reading) && |s.past.part| + 1 == s.cmd.prebin
    ensures var t := Tick(s, unit, ms, reading);
            && Inv(t) && (Continues(s, t) || Completed(s, t))
            && AllReadings(t.past) == AllReadings(s.past) + reading == CountsOf(t.stored)
            && (t.busy ==> t.cur.counts == 0)
  {
    hide AddSample, OverOnTick, SampleDue, CheckCounts, TicksFor, CloseRecord, RecordsMatch, Sum, Has;
    SampleAdded(s, reading);
    DueExactly(s);
    SumAppend(s.past.part, reading);
    var u := Added(s, reading);
    var e := CheckCounts(s, reading, s.cur.period + TICK_NS);
    CheckedErrorMeans(s, reading);
    var t := CloseRecord(u, unit, ms, e);
    assert Tick(s, unit, ms, reading) == t;
    RecordClosed(u, t, unit, ms, e);
    RecordsHoldReadings(t.stored, t.past.bins, t.cmd);
    NothingSince(u, unit, ms, e);
  }

  lemma NothingSince(s: State, unit: int, ms: int, e: bv8)
    ensures var t := CloseRecord(s, unit, ms, e);
            t.cur.counts == 0 && t.past.part == [] && Sum(t.past.part) == 0 && t.past.ticks == s.past.ticks
  {
  }

  lemma SamplingTick(s: State, unit: int, ms: int, reading: nat)
    requires Inv(s) && s.busy && SampleDue(s)
    ensures var t := Tick(s, unit, ms, reading);
            && Inv(t)
            && AllReadings(t.past) == AllReadings(s.past) + reading
            && CountsOf(t.stored) + (if t.busy then t.cur.counts else 0) == AllReadings(t.past)
            && (OverOnTick(s, reading) ==> !t.busy && !t.probe && t.past.closes == s.past.closes + 1)
            && (!OverOnTick(s, reading) ==> Continues(s, t) || Completed(s, t))
  {
    hide Tick;
    if OverOnTick(s, reading) {
      CutOffTick(s, unit, ms, reading);
    } else if |s.past.part| + 1 < s.cmd.prebin {
      ContinuingTick(s, unit, ms, reading);
    } else {
      ClosingTick(s, unit, ms, reading);
    }
  }

  lemma CheckedErrorMeans(s: State, reading: nat)
    requires Inv(s) && s.busy && SampleDue(s)
    ensures Has(CheckCounts(s, reading, s.cur.period + TICK_NS), CRIT) <==> OverOnTick(s, reading)
  {
    RateOfSample(s, reading);
    NewErrorMeans(s.cur.error, Rate(reading, s.cur.period + TICK_NS) >= s.limit,
                  Rate(reading, s.cur.period + TICK_NS) >= WARN_RATE);
  }

  // ---------------------------------------------------------------- probing and idling

  lemma StartIntegKeeps(s: State)
    requires ValidCmd(s.cmd) && s.numOpen < 256
    ensures Inv(StartInteg(s))
  {
    assert TicksFor(s.cmd, 0, 0) == 0;
  }

  lemma OverIsCritical(s: State, unit: int, ms: int, reading: nat)
    requires s.probe && OverOnTick(s, reading)
    ensures Has(Probed(s, unit, ms, reading).cur.error, CRIT)
  {
    var e := CheckCounts(s, reading, TICK_NS);
    NewErrorMeans(s.cur.error, Rate(reading, TICK_NS) >= s.limit, Rate(reading, TICK_NS) >= WARN_RATE);
    ErrorBits(e, ERR_OVERFLOW);
    ErrorBits(Look(s, unit, ms, reading).cur.error, ProbeError(s, reading));
    hide Has, NewError, Rate, CheckCounts;
  }

  lemma ProbedKeeps(s: State, unit: int, ms: int, reading: nat)
    ensures var t := Probed(s, unit, ms, reading);
            && t.past.delivered == s.past.delivered && t.userIdx == s.userIdx && t.stored == s.stored
            && t.numOpen == s.numOpen && t.cmd == s.cmd && t.probeCounter == s.probeCounter
            && t.probe == s.probe && t.busy == s.busy
            && t.past.closes == Closed(s, reading, TICK_NS).past.closes
  {
    hide Has, NewError, Rate, CheckCounts;
  }

  lemma ProbeEndsOrGoesOn(s: State, unit: int, ms: int, reading: nat)
    requires Inv(s) && s.probe
    ensures var t, u := Tick(s, unit, ms, reading), Probed(s, unit, ms, reading);
            && Inv(t) && t.cmd == s.cmd && t.past.closes == u.past.closes
            && (Has(u.cur.error, CRIT) ==> !t.busy && !t.probe)
  {
    ProbedKeeps(s, unit, ms, reading);
    var u := Probed(s, unit, ms, reading);
    StartIntegKeeps(u.(probeCounter := if ms == 0 then u.probeCounter - 1 else u.probeCounter));
    hide Has, CheckCounts, NoteError, Look, ProbeError, Accounted;
  }

  lemma ProbeTickKeeps(s: State, unit: int, ms: int, reading: nat)
    requires Inv(s) && s.probe
    ensures var t := Tick(s, unit, ms, reading);
            && Inv(t) && t.cmd == s.cmd
            && (OverOnTick(s, reading) ==> !t.busy && !t.probe)
            && (OverOnTick(s, reading) && !Has(s.cur.error, ERR_OVERILLUM) ==> t.past.closes == s.past.closes + 1)
  {
    ProbeEndsOrGoesOn(s, unit, ms, reading);
    ProbedKeeps(s, unit, ms, reading);
    if OverOnTick(s, reading) {
      OverIsCritical(s, unit, ms, reading);
    }
    hide Tick, Inv, Probed, Has;
  }

  /** Over-illumination cut-out: whenever a tick computes a rate at or above the limit, neither a probe nor an
      integration is under way after it; and if one was integrating, the shutter closure was ordered. */
  lemma CutOut(s: State, unit: int, ms: int, reading: nat)
    requires Inv(s) && OverOnTick(s, reading)
    ensures var t := Tick(s, unit, ms, reading);
            && !t.probe && !t.busy
            && (s.busy || !Has(s.cur.error, ERR_OVERILLUM) ==> t.past.closes == s.past.closes + 1)
  {
    if s.probe {
      ProbeTickKeeps(s, unit, ms, reading);
    } else if s.busy {
      SamplingTick(s, unit, ms, reading);
    }
  }

  lemma TickKeeps(s: State, unit: int, ms: int, reading: nat)
    requires Inv(s)
    ensures Inv(Tick(s, unit, ms, reading))
  {
    if s.probe {
      ProbeTickKeeps(s, unit, ms, reading);
    } else if s.busy {
      if SampleDue(s) {
        SamplingTick(s, unit, ms, reading);
      } else {
        WaitingTick(s, unit, ms, reading);
      }
    }
  }

  // ---------------------------------------------------------------- runs

  datatype Event =
    | TickEvent(unit: int, ms: int, reading: nat)
    | OrderEvent(cmd: Cmd)
    | SyncEvent(synced: bool)
    | ReadEvent
    | CurrentEvent
    | LimitEvent(value: nat)
    | ChannelEvent(channel: nat, count: nat)
    | OpenEvent
    | ReleaseEvent

  function Step(s: State, e: Event): State {
    match e
    case TickEvent(unit, ms, reading) => Tick(s, unit, ms, reading)
    case OrderEvent(cmd) => OrderInteg(s, cmd)
    case SyncEvent(synced) => TimeSync(s, synced)
    case ReadEvent => ReadData(s)
    case CurrentEvent => GetCurrent(s)
    case LimitEvent(value) => SetLimit(s, value)
    case ChannelEvent(channel, count) => SetChannel(s, channel, count)
    case OpenEvent => Open(s)
    case ReleaseEvent => Release(s)
  }

  lemma StepKeeps(s: State, e: Event)
    requires Inv(s)
    ensures Inv(Step(s, e))
  {
    hide Tick, TicksFor, Sum, Has;
    match e
    case TickEvent(unit, ms, reading) => TickKeeps(s, unit, ms, reading);
    case SyncEvent(synced) => ErrorBits(s.cur.error, 0);
    case _ =>
  }

  function Run(s: State, es: seq<Event>): State
    decreases |es|
  {
    if es == [] then s else Run(Step(s, es[0]), es[1..])
  }

  lemma {:induction false} RunKeeps(s: State, es: seq<Event>)
    requires Inv(s)
    ensures Inv(Run(s, es))
    decreases |es|
  {
    if es != [] {
      StepKeeps(s, es[0]);
      RunKeeps(Step(s, es[0]), es[1..]);
    }
  }

  /** From loading on, in every state: probing and integrating exclude each other, an integration has no critical
      error, and all readings taken are in the stored records and the current one. */
  lemma ReachableStates(reading: nat, es: seq<Event>)
    ensures var s := Run(Boot(reading), es);
            && !(s.probe && s.busy)
            && (s.busy ==> !Has(s.cur.error, CRIT) && CountsOf(s.stored) + s.cur.counts == AllReadings(s.past))
  {
    RunKeeps(Boot(reading), es);
    var s := Run(Boot(reading), es);
    if s.busy {
      RecordsHoldReadings(s.stored, s.past.bins, s.cmd);
    }
  }

  // ---------------------------------------------------------------- whole integrations

  /** The counter readings of the ticks in a run. */
  function Readings(es: seq<Event>): (rs: seq<nat>)
    ensures |rs| <= |es|
    decreases |es|
  {
    if es == [] then []
    else Readings(es[..|es| - 1]) + if es[|es| - 1].TickEvent? then [es[|es| - 1].reading] else []
  }

  /** Every length-th of them. */
  function Sampled(rs: seq<nat>, length: nat): seq<nat>
    requires length > 0
    decreases |rs|
  {
    if rs == [] then [] else Sampled(rs[..|rs| - 1], length) + if |rs| % length == 0 then [rs[|rs| - 1]] else []
  }

  /** No tick is over the limit, and the integration is not cancelled, by order or by the last release. */
  predicate Uninterrupted(s: State, e: Event) {
    match e
    case TickEvent(_, _, reading) => !OverOnTick(s, reading)
    case OrderEvent(cmd) => cmd.mode != 0
    case ReleaseEvent => (s.numOpen + 255) % 256 > 0
    case _ => true
  }

  ghost predicate UninterruptedRun(s: State, es: seq<Event>)
    decreases |es|
  {
    es == [] ||
    (UninterruptedRun(s, es[..|es| - 1]) && Uninterrupted(Run(s, es[..|es| - 1]), es[|es| - 1]))
  }

  lemma {:induction false} RunEnds(s: State, es: seq<Event>)
    requires es != []
    ensures Run(s, es) == Step(Run(s, es[..|es| - 1]), es[|es| - 1])
    decreases |es|
  {
    var n := |es| - 1;
    if n == 0 {
      assert es[..0] == [] && es[1..] == [];
    } else {
      RunEnds(Step(s, es[0]), es[1..]);
      assert es[1..][..n - 1] == es[..n][1..];
      hide Step;
    }
  }

  function Flatten(bins: seq<seq<nat>>): seq<nat>
    decreases |bins|
  {
    if bins == [] then [] else Flatten(bins[..|bins| - 1]) + bins[|bins| - 1]
  }

  lemma FlattenAppend(bins: seq<seq<nat>>, bin: seq<nat>)
    ensures Flatten(bins + [bin]) == Flatten(bins) + bin
  {
    assert (bins + [bin])[..|bins|] == bins;
  }

  /** What a busy tick that is not cut off adds to the readings. */
  lemma TickAddsReading(s: State, unit: int, ms: int, reading: nat)
    requires Inv(s) && s.busy && !OverOnTick(s, reading)
    ensures var t := Tick(s, unit, ms, reading);
            && Flatten(t.past.bins) + t.past.part ==
               Flatten(s.past.bins) + s.past.part + (if SampleDue(s) then [reading] else [])
            && (Continues(s, t) || Completed(s, t))
  {
    hide Tick, SampleDue, OverOnTick, Flatten, TicksFor, Completed, Inv;
    if !SampleDue(s) {
      WaitingTick(s, unit, ms, reading);
      assert Flatten(s.past.bins) + s.past.part + [] == Flatten(s.past.bins) + s.past.part;
    } else {
      SamplingTick(s, unit, ms, reading);
      FlattenAppend(s.past.bins, s.past.part + [reading]);
      ReadingJoins(s, unit, ms, reading);
    }
  }

  lemma ReadingJoins(s: State, unit: int, ms: int, reading: nat)
    requires Inv(s) && s.busy && SampleDue(s) && !OverOnTick(s, reading)
    ensures var t := Tick(s, unit, ms, reading);
            || (t.past.bins == s.past.bins && t.past.part == s.past.part + [reading])
            || (t.past.bins == s.past.bins + [s.past.part + [reading]] && t.past.part == [])
  {
    hide AddSample, CheckCounts, OverOnTick, Accounted;
    SampleAdded(s, reading);
  }

  lemma TicksForGrows(cmd: Cmd, records: nat, samples: nat)
    requires ValidCmd(cmd) && records < cmd.reps && samples < cmd.prebin
    ensures TicksFor(cmd, records, samples) + cmd.length <= TicksFor(cmd, cmd.reps, 0)
  {
    var done, all := cmd.prebin * records + samples, cmd.prebin * cmd.reps;
    NextMultiple(cmd.prebin, records, cmd.reps);
    if done + 1 < all {
      NextMultiple(cmd.length, done + 1, all);
    }
    assert cmd.length * (done + 1) == cmd.length * done + cmd.length;
  }

  /** Samples fall due at the multiples of the sample length. */
  lemma DueAtMultiples(s: State)
    requires Inv(s) && s.busy
    ensures SampleDue(s) <==> (s.past.ticks + 1) % s.cmd.length == 0
    ensures s.past.ticks < TicksFor(s.cmd, s.cmd.reps, 0)
  {
    var n := s.cmd.prebin * |s.past.bins| + |s.past.part|;
    var phase := s.past.ticks - s.cmd.length * n;
    TicksForGrows(s.cmd, |s.past.bins|, |s.past.part|);
    assert s.past.ticks + 1 == s.cmd.length * n + (phase + 1);
    RemainderOf(s.cmd.length, n, phase + 1);
  }

  lemma RemainderOf(d: nat, n: nat, r: nat)
    requires d > 0 && 1 <= r <= d
    ensures (d * n + r) % d == 0 <==> r == d
  {
    if r == d {
      assert d * n + r == d * (n + 1);
      MultipleHasNoRemainder(d, n + 1);
    } else {
      MultipleHasNoRemainder(d, n);
      assert (d * n + r) % d == r by {
        DivisionIsUnique(d * n + r, d, n, r);
      }
    }
  }

  lemma MultipleHasNoRemainder(d: nat, n: nat)
    requires d > 0
    ensures (d * n) % d == 0
  {
    DivisionIsUnique(d * n, d, n, 0);
  }

  lemma DivisionIsUnique(x: nat, d: nat, q: nat, r: nat)
    requires d > 0 && r < d && x == d * q + r
    ensures x % d == r
  {
    var q' := x / d;
    if q > q' {
      NextMultiple(d, q', q);
    } else if q < q' {
      NextMultiple(d, q, q');
    }
  }

  lemma NextMultiple(d: nat, q: nat, q': nat)
    requires q < q'
    ensures d * q' >= d * q + d
  {
    assert d * q' == d * (q + 1) + d * (q' - q - 1);
    assert d * (q + 1) == d * q + d;
    assert d * (q' - q - 1) >= 0;
  }

  /** In whatever way reads, queries and other calls come between its ticks, an integration that is not cut off ends
      with its L*P*R-th tick, not before, and then all its records are stored. */
  lemma EndsWithItsLastTick(s: State, unit: int, ms: int, reading: nat)
    requires Inv(s) && s.busy && !OverOnTick(s, reading)
    ensures var t := Tick(s, unit, ms, reading);
            && (t.busy <==> s.past.ticks + 1 < s.cmd.length * (s.cmd.prebin * s.cmd.reps))
            && t.past.ticks == s.past.ticks + 1
            && (!t.busy ==> |t.stored| == s.cmd.reps && RecordsMatch(t.stored, t.past.bins, s.cmd))
  {
    TickAddsReading(s, unit, ms, reading);
    TickKeeps(s, unit, ms, reading);
    var t := Tick(s, unit, ms, reading);
    if t.busy {
      DueAtMultiples(t);
    }
    hide Tick, Inv, OverOnTick, Flatten;
  }

  predicate JustStarted(s: State) {
    s.busy && s.past.ticks == 0 && s.past.bins == [] && s.past.part == []
  }

  /** Reads, queries, time synchronisation, new limits, refused orders and channels leave an integration alone. */
  lemma OtherEventsLeaveIntegration(s: State, e: Event)
    requires Inv(s) && s.busy && !e.TickEvent? && Uninterrupted(s, e)
    ensures var t := Step(s, e);
            && t.busy && t.cmd == s.cmd && t.stored == s.stored
            && t.past.bins == s.past.bins && t.past.part == s.past.part
            && t.past.ticks == s.past.ticks
  {
    hide Accounted, Has, SlotHolder;
  }

  /** The total number of ticks of an integration of sample length L, prebinning P and R repetitions. */
  function TicksInAll(cmd: Cmd): nat {
    cmd.length * (cmd.prebin * cmd.reps)
  }

  /** What a run up to the last tick of its integration has done. */
  ghost predicate RunsAsOrdered(cmd: Cmd, t: State, rs: seq<nat>)
    requires cmd.length > 0
  {
    && t.cmd == cmd && t.past.ticks == |rs| && Flatten(t.past.bins) + t.past.part == Sampled(rs, cmd.length)
    && (t.busy <==> |rs| < TicksInAll(cmd))
    && (!t.busy ==> |t.stored| == cmd.reps && t.past.part == [] && RecordsMatch(t.stored, t.past.bins, cmd))
  }

  lemma JustStartedRuns(s: State)
    requires Inv(s) && JustStarted(s)
    ensures RunsAsOrdered(s.cmd, s, [])
  {
    DueAtMultiples(s);
    assert TicksFor(s.cmd, s.cmd.reps, 0) == TicksInAll(s.cmd);
    assert Flatten(s.past.bins) + s.past.part == [];
  }

  lemma TickRunsOn(cmd: Cmd, u: State, e: Event, rs: seq<nat>)
    requires Inv(u) && u.busy && e.TickEvent? && Uninterrupted(u, e) && cmd.length > 0 && RunsAsOrdered(cmd, u, rs)
    ensures RunsAsOrdered(cmd, Step(u, e), rs + [e.reading])
  {
    DueAtMultiples(u);
    TickAddsReading(u, e.unit, e.ms, e.reading);
    EndsWithItsLastTick(u, e.unit, e.ms, e.reading);
    assert (rs + [e.reading])[..|rs|] == rs;
    hide Tick, Accounted, Flatten, OverOnTick, SampleDue, RecordsMatch, TicksFor;
  }

  lemma OtherRunsOn(cmd: Cmd, u: State, e: Event, rs: seq<nat>)
    requires Inv(u) && u.busy && !e.TickEvent? && Uninterrupted(u, e) && cmd.length > 0 && RunsAsOrdered(cmd, u, rs)
    ensures RunsAsOrdered(cmd, Step(u, e), rs)
  {
    OtherEventsLeaveIntegration(u, e);
    hide Step, Flatten, Sampled, TicksInAll, Inv;
  }

  /** Over every run that does not go on after the integration's last tick, with reads, queries and other calls in
      any places: ticks are counted exactly, the readings taken are every L-th one, in order, and the integration is
      under way for exactly L*P*R ticks. */
  lemma {:induction false} IntegrationRuns(s: State, es: seq<Event>)
    requires Inv(s) && JustStarted(s) && UninterruptedRun(s, es)
    requires es != [] ==> |Readings(es[..|es| - 1])| < TicksInAll(s.cmd)
    ensures Inv(Run(s, es)) && RunsAsOrdered(s.cmd, Run(s, es), Readings(es))
    decreases |es|
  {
    hide Step, RunsAsOrdered, TicksInAll, Uninterrupted, Accounted;
    if es == [] {
      JustStartedRuns(s);
    } else {
      var before, e := es[..|es| - 1], es[|es| - 1];
      IntegrationRuns(s, before);
      var u := Run(s, before);
      UnderWayMeans(s.cmd, u, Readings(before));
      RunEnds(s, es);
      StepKeeps(u, e);
      if e.TickEvent? {
        TickRunsOn(s.cmd, u, e, Readings(before));
      } else {
        OtherRunsOn(s.cmd, u, e, Readings(before));
        assert Readings(before) + [] == Readings(before);
      }
    }
  }

  lemma UnderWayMeans(cmd: Cmd, t: State, rs: seq<nat>)
    requires cmd.length > 0 && RunsAsOrdered(cmd, t, rs)
    ensures t.busy <==> |rs| < TicksInAll(cmd)
  {
  }

  /** When its last tick has come: R records, the k-th with the sum of its own P readings, and together the readings
      are every L-th one. */
  lemma CompleteIntegration(s: State, es: seq<Event>)
    requires Inv(s) && JustStarted(s) && UninterruptedRun(s, es) && es != []
    requires |Readings(es[..|es| - 1])| < |Readings(es)| == s.cmd.length * (s.cmd.prebin * s.cmd.reps)
    ensures var t := Run(s, es);
            && !t.busy && |t.stored| == s.cmd.reps == |t.past.bins|
            && (forall k :: 0 <= k < s.cmd.reps ==>
                  |t.past.bins[k]| == s.cmd.prebin && t.stored[k].counts == Sum(t.past.bins[k]))
            && Flatten(t.past.bins) == Sampled(Readings(es), s.cmd.length)
  {
    hide Run, Readings, UninterruptedRun, Inv, Flatten, Sampled, Sum;
    assert s.cmd.length > 0 by { StartedLength(s); }
    IntegrationRuns(s, es);
    var t := Run(s, es);
    assert Flatten(t.past.bins) + [] == Flatten(t.past.bins);
    forall k | 0 <= k < s.cmd.reps
      ensures |t.past.bins[k]| == s.cmd.prebin && t.stored[k].counts == Sum(t.past.bins[k])
    {
      assert RecordOf(t.stored[k], k, t.past.bins[k], s.cmd);
    }
  }

  lemma StartedLength(s: State)
    requires Inv(s) && JustStarted(s)
    ensures s.cmd.length > 0
  {
  }

  // ---------------------------------------------------------------- the reader

  /** The reader has got the stored records from the first on, in order, each once. */
  predicate InOrder(s: State) {
    s.userIdx <= |s.stored| && s.past.delivered == s.stored[..s.userIdx]
  }

  /** At most 5000 records wait to be read. */
  predicate InTime(s: State) {
    |s.stored| - s.userIdx <= 5000
  }

  /** A read gets the next record exactly if no more than 5000 are waiting. */
  lemma ReadGetsNextExactlyInTime(s: State)
    requires ReadReply(s) == Ok
    ensures SlotHolder(s.userIdx, |s.stored|) == s.userIdx <==> InTime(s)
    ensures InTime(s) ==> ReadRecord(s) == s.stored[s.userIdx]
  {
  }

  predicate Extends(s: State, t: State) {
    s.stored <= t.stored && t.userIdx == s.userIdx && t.past.delivered == s.past.delivered
  }

  /** A tick begins a new list of records or extends the present one. */
  predicate BeginsOrExtends(s: State, t: State) {
    (t.stored == [] && t.userIdx == 0 && t.past.delivered == []) || Extends(s, t)
  }

  lemma ProbeTickAppends(s: State, unit: int, ms: int, reading: nat)
    ensures BeginsOrExtends(s, ProbeTick(s, unit, ms, reading))
  {
    ProbedKeeps(s, unit, ms, reading);
    hide CheckCounts, Has, NoteError, Look, ProbeError;
  }

  lemma SampleExtends(s: State, t: State, unit: int, ms: int, e: bv8)
    requires t.stored == s.stored && t.userIdx == s.userIdx && t.past.delivered == s.past.delivered
    ensures Extends(s, CancelInteg(t)) && Extends(s, t.(cur := t.cur.(period := 0)))
            && Extends(s, CloseRecord(t, unit, ms, e))
  {
  }

  lemma AddSampleKeepsRecords(s: State, reading: nat)
    ensures var t := AddSample(s, reading);
            t.stored == s.stored && t.userIdx == s.userIdx && t.past.delivered == s.past.delivered
  {
    hide CheckCounts, Has;
  }

  lemma BusyTickAppends(s: State, unit: int, ms: int, reading: nat)
    ensures Extends(s, BusyTick(s, unit, ms, reading))
  {
    hide CheckCounts, Has, AddSample, CloseRecord, CancelInteg, SampleDue;
    if SampleDue(s) {
      var s1 := s.(past := s.past.(ticks := s.past.ticks + 1));
      AddSampleKeepsRecords(s1, reading);
      var t, e := AddSample(s1, reading), CheckCounts(s, reading, s.cur.period + TICK_NS);
      SampleExtends(s, t, unit, ms, e);
      var r := BusyTick(s, unit, ms, reading);
      if Has(t.cur.error, CRIT) {
        assert r == CancelInteg(t);
      } else if t.cur.prebin < t.cmd.prebin {
        assert r == t.(cur := t.cur.(period := 0));
      } else {
        assert r == CloseRecord(t, unit, ms, e);
      }
      assert Extends(s, r);
    } else {
      assert BusyTick(s, unit, ms, reading).stored == s.stored;
    }
  }

  lemma IdleTickAppends(s: State, unit: int, ms: int, reading: nat)
    ensures BeginsOrExtends(s, IdleTick(s, unit, ms, reading))
  {
    hide CheckCounts, Rate, NewError, Has;
  }

  lemma TickAppends(s: State, unit: int, ms: int, reading: nat)
    ensures BeginsOrExtends(s, Tick(s, unit, ms, reading))
  {
    ProbeTickAppends(s, unit, ms, reading);
    BusyTickAppends(s, unit, ms, reading);
    IdleTickAppends(s, unit, ms, reading);
    hide ProbeTick, BusyTick, IdleTick, Extends;
  }

  lemma StepKeepsOrder(s: State, e: Event)
    requires InOrder(s) && (e.ReadEvent? ==> InTime(s))
    ensures InOrder(Step(s, e))
  {
    match e
    case TickEvent(unit, ms, reading) =>
      TickAppends(s, unit, ms, reading);
      var t := Tick(s, unit, ms, reading);
      assert s.stored <= t.stored ==> t.stored[..s.userIdx] == s.stored[..s.userIdx];
    case ReadEvent =>
      if ReadReply(s) == Ok {
        ReadGetsNextExactlyInTime(s);
        assert s.stored[..s.userIdx + 1] == s.stored[..s.userIdx] + [s.stored[s.userIdx]];
      }
    case OrderEvent(cmd) =>
      assert (s.stored + [s.cur])[..s.userIdx] == s.stored[..s.userIdx];
    case ReleaseEvent =>
      assert (s.stored + [s.cur])[..s.userIdx] == s.stored[..s.userIdx];
    case _ =>
  }

  ghost predicate EveryReadInTime(s: State, es: seq<Event>)
    decreases |es|
  {
    es == [] || ((es[0].ReadEvent? ==> InTime(s)) && EveryReadInTime(Step(s, es[0]), es[1..]))
  }

  /** Over every interleaving of ticks, orders and reads: as long as no read comes too late, the reader
      gets the records of the current integration in order, once each. */
  lemma {:induction false} ReaderGetsRecordsInOrder(s: State, es: seq<Event>)
    requires InOrder(s) && EveryReadInTime(s, es)
    ensures InOrder(Run(s, es))
    decreases |es|
  {
    if es != [] {
      StepKeepsOrder(s, es[0]);
      ReaderGetsRecordsInOrder(Step(s, es[0]), es[1..]);
    }
  }
}
