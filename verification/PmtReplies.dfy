/** What the photomultiplier driver tells its programs: the replies to orders and reads, the flags for unread errors and
    records, and the error byte. */
module PmtReplies {
  import opened Pmt
  import opened PmtRuns
  import opened PmtLimits

  // ---------------------------------------------------------------- orders

  /** Mode 0 is always accepted, and leaves nothing under way. Any other order is refused while something is, and else
      accepted exactly for mode 1 and a length, a prebinning and a number of repetitions of at least 1; then the probe
      begins. A refused order changes nothing. */
  lemma OrderIsAcceptedExactly(s: State, cmd: Cmd)
    ensures var t, reply := Step(s, OrderEvent(cmd)), OrderReply(s, cmd);
            && (reply == Perm <==> cmd.mode != 0 && (s.busy || s.probe))
            && (reply == Inval <==> cmd.mode != 0 && !s.busy && !s.probe
                                    && !(cmd.mode == 1 && cmd.length >= 1 && cmd.prebin >= 1 && cmd.reps >= 1))
            && (reply == Ok <==> reply != Perm && reply != Inval)
            && (reply != Ok ==> t == s)
            && (cmd.mode == 0 ==> !t.busy && !t.probe)
            && (cmd.mode != 0 && reply == Ok ==> t == s.(cmd := cmd, probeCounter := 3, probe := true))
  {
  }

  // ---------------------------------------------------------------- records

  /** A read gets one record exactly if records are announced and one is left; the announcement stays while more are. */
  lemma ReadIsAnsweredExactly(s: State)
    ensures var t := Step(s, ReadEvent);
            if s.ready && s.userIdx < |s.stored|
            then |t.past.delivered| == |s.past.delivered| + 1 && t.userIdx == s.userIdx + 1
                 && (t.ready <==> t.userIdx < |t.stored|) && t.stored == s.stored
            else t == s
  {
    hide SlotHolder;
  }

  /** A tick announces records exactly when it completes one; the start of an integration takes back the old ones. */
  lemma TickAnnouncesExactly(s: State, unit: int, ms: int, reading: nat)
    requires Inv(s)
    ensures var t := Tick(s, unit, ms, reading);
            t.ready <==> if s.probe && t.busy then false
                         else s.ready || (s.busy && SampleDue(s) && !OverOnTick(s, reading) && |t.stored| > |s.stored|)
  {
    if s.probe {
      ProbeAnnounces(s, unit, ms, reading);
    } else if s.busy {
      BusyAnnounces(s, unit, ms, reading);
    } else {
      IdleAnnounces(s, unit, ms, reading);
    }
  }

  lemma ProbeAnnounces(s: State, unit: int, ms: int, reading: nat)
    requires Inv(s) && s.probe
    ensures var t := ProbeTick(s, unit, ms, reading);
            t.ready <==> s.ready && !t.busy
  {
    hide Probed, ProbeError, Has, Accounted;
    ProbedKeeps(s, unit, ms, reading);
    ProbedReady(s, unit, ms, reading);
  }

  lemma ProbedReady(s: State, unit: int, ms: int, reading: nat)
    ensures Probed(s, unit, ms, reading).ready == s.ready
  {
    hide Has, NewError, Rate, ProbeError;
  }

  lemma IdleAnnounces(s: State, unit: int, ms: int, reading: nat)
    ensures IdleTick(s, unit, ms, reading).ready == s.ready
  {
    hide Look, CheckCounts;
    LookReady(s, unit, ms, reading);
  }

  lemma LookReady(s: State, unit: int, ms: int, reading: nat)
    ensures Look(s, unit, ms, reading).ready == s.ready
  {
    hide Has, Rate;
  }

  lemma BusyAnnounces(s: State, unit: int, ms: int, reading: nat)
    requires Inv(s) && s.busy
    ensures var t := BusyTick(s, unit, ms, reading);
            t.ready <==> s.ready || (SampleDue(s) && !OverOnTick(s, reading) && |t.stored| > |s.stored|)
  {
    hide AddSample, CheckCounts, Has, OverOnTick, SampleDue, Accounted;
    if SampleDue(s) {
      SampleAdded(s, reading);
      AddedReady(s.(past := s.past.(ticks := s.past.ticks + 1)), reading);
    }
  }

  lemma AddedReady(s: State, reading: nat)
    ensures AddSample(s, reading).ready == s.ready
  {
    hide Has, CheckCounts, Rate;
  }

  /** In every reachable state in which nothing integrates, the sample period shown is a millisecond. */
  lemma RestShowsMilliseconds(reading: nat, es: seq<Event>)
    ensures var s := Run(Boot(reading), es);
            !s.busy ==> s.cur.period == 1000000 && s.cur.prebin == 0
  {
    RestStays(Boot(reading), es);
  }

  predicate AtRest(s: State) {
    !s.busy ==> s.cur.period == 1000000 && s.cur.prebin == 0
  }

  lemma {:induction false} RestStays(s: State, es: seq<Event>)
    requires AtRest(s) && Inv(s)
    ensures AtRest(Run(s, es))
    decreases |es|
  {
    if es != [] {
      hide Step, AtRest, Inv;
      RestAfter(s, es[0]);
      StepKeeps(s, es[0]);
      RestStays(Step(s, es[0]), es[1..]);
    }
  }

  lemma RestAfter(s: State, e: Event)
    requires AtRest(s) && Inv(s)
    ensures AtRest(Step(s, e))
  {
    hide ProbeTick, BusyTick, IdleTick, SlotHolder, OrderReply, Accounted;
    if e.TickEvent? {
      if s.busy {
        BusyRest(s, e.unit, e.ms, e.reading);
      } else {
        ProbeRest(s, e.unit, e.ms, e.reading);
        IdleRest(s, e.unit, e.ms, e.reading);
      }
    }
  }

  lemma ProbeRest(s: State, unit: int, ms: int, reading: nat)
    requires AtRest(s) && !s.busy
    ensures AtRest(ProbeTick(s, unit, ms, reading))
  {
    hide Probed, ProbeError, Has;
    ProbedRest(s, unit, ms, reading);
  }

  lemma ProbedRest(s: State, unit: int, ms: int, reading: nat)
    ensures var u := Probed(s, unit, ms, reading);
            u.cur.period == s.cur.period && u.cur.prebin == s.cur.prebin && u.busy == s.busy
  {
    hide ProbeError, Rate, Has;
  }

  lemma IdleRest(s: State, unit: int, ms: int, reading: nat)
    requires AtRest(s) && !s.busy
    ensures AtRest(IdleTick(s, unit, ms, reading))
  {
    hide NewError, Rate, Has, CheckCounts;
  }

  lemma BusyRest(s: State, unit: int, ms: int, reading: nat)
    requires s.busy
    ensures AtRest(BusyTick(s, unit, ms, reading))
  {
    hide AddSample, CheckCounts, Has, SampleDue;
    AddedBusy(s.(past := s.past.(ticks := s.past.ticks + 1)), reading);
  }

  lemma AddedBusy(s: State, reading: nat)
    ensures AddSample(s, reading).busy == s.busy
  {
    hide Has, CheckCounts, Rate;
  }

  // ---------------------------------------------------------------- errors

  /** A probe that is given up tells what was found, but not that the counter would overflow. */
  lemma GivenUpProbeTells(s: State, unit: int, ms: int, reading: nat)
    requires Inv(s) && s.probe && !Tick(s, unit, ms, reading).probe && !Tick(s, unit, ms, reading).busy
    ensures Says(Tick(s, unit, ms, reading).cur.error, s.cur.error, reading * 1000, s.limit)
  {
    hide Probed, ProbeError, Has, Says, Accounted;
    ProbedKeeps(s, unit, ms, reading);
    OverflowIsNotTold(s, reading);
  }

  lemma OverflowIsNotTold(s: State, reading: nat)
    ensures Says(ProbeError(s, reading) & !ERR_OVERFLOW, s.cur.error, reading * 1000, s.limit)
  {
    hide NewError, Says;
    RateOfMillisecond(reading);
    NewErrorSays(s.cur.error, reading * 1000, s.limit);
    WithoutOverflow(CheckCounts(s, reading, TICK_NS), s.cur.error, reading * 1000, s.limit);
  }

  lemma WithoutOverflow(e: bv8, before: bv8, rate: nat, limit: nat)
    requires Says(e, before, rate, limit)
    ensures Says(e & !ERR_OVERFLOW, before, rate, limit)
    ensures Says((e | ERR_OVERFLOW) & !ERR_OVERFLOW, before, rate, limit)
  {
    OverflowOff(e);
  }

  lemma OverflowOff(e: bv8)
    ensures e & 0xE9 == 0 ==> e & !ERR_OVERFLOW == e && (e | ERR_OVERFLOW) & !ERR_OVERFLOW == e
  {
  }

  /** The record after a completed one begins with the error of the last sample alone. */
  lemma NextRecordTells(s: State, unit: int, ms: int, reading: nat, length: nat)
    requires length > 0 && s.cmd.length == length && s.cur.period + 1000000 == length * 1000000
    requires s.busy && !s.probe
    ensures var t := Tick(s, unit, ms, reading);
            t.busy && t.stored != s.stored ==>
              && Says(t.cur.error, s.cur.error, SampleRate(reading, length), s.limit)
              && t.cur.counts == 0 && t.cur.period == 0 && t.cur.prebin == 0
  {
    hide AddSample, CheckCounts, Has, Says, SampleRate;
    SampleSays(s, reading, length);
    SamplePlace(s.(past := s.past.(ticks := s.past.ticks + 1)), reading);
  }

  /** An error is unread from when a tick finds one: in a sample, one that differs from the record's error so far; the
      query of the current state reads it, and a change of time synchronisation is one. */
  lemma ErrorIsUnreadExactly(s: State, e: Event)
    requires Inv(s)
    ensures var t := Step(s, e);
            t.err <==> match e
                       case TickEvent(_, _, reading) =>
                         if s.probe then s.err || ProbeError(s, reading) != 0
                         else if s.busy then s.err || (SampleDue(s) && NewsIn(s, reading))
                         else (s.numOpen != 0 && s.err) || CheckCounts(s, reading, 1000000) != 0
                       case CurrentEvent => false
                       case SyncEvent(_) => true
                       case _ => s.err
  {
    hide ProbeTick, BusyTick, IdleTick, SlotHolder, OrderReply, Accounted, NewsIn, ProbeError, CheckCounts, SampleDue;
    if e.TickEvent? {
      ProbeErr(s, e.unit, e.ms, e.reading);
      BusyErr(s, e.unit, e.ms, e.reading);
      IdleErr(s, e.unit, e.ms, e.reading);
    }
  }

  predicate NewsIn(s: State, reading: nat) {
    var e := CheckCounts(s, reading, s.cur.period + 1000000);
    e != 0 && e != s.cur.error
  }

  lemma ProbeErr(s: State, unit: int, ms: int, reading: nat)
    ensures ProbeTick(s, unit, ms, reading).err <==> s.err || ProbeError(s, reading) != 0
  {
    hide Rate, ProbeError, Has, CheckCounts;
  }

  lemma IdleErr(s: State, unit: int, ms: int, reading: nat)
    ensures IdleTick(s, unit, ms, reading).err <==>
            (s.numOpen != 0 && s.err) || CheckCounts(s, reading, 1000000) != 0
  {
    hide Rate, Has, CheckCounts;
  }

  lemma BusyErr(s: State, unit: int, ms: int, reading: nat)
    ensures BusyTick(s, unit, ms, reading).err <==> s.err || (SampleDue(s) && NewsIn(s, reading))
  {
    hide AddSample, CheckCounts, Has, SampleDue, NewsIn;
    AddedErr(s, reading);
  }

  lemma AddedErr(s: State, reading: nat)
    ensures AddSample(s.(past := s.past.(ticks := s.past.ticks + 1)), reading).err <==> s.err || NewsIn(s, reading)
  {
    hide Has, NewError, Rate;
  }

  /** Bit 0x10 is lit while time is not synchronised; the other bits are left alone. */
  lemma SyncTells(s: State, synced: bool)
    ensures var t := Step(s, SyncEvent(synced));
            && (t.cur.error & 0x10 != 0 <==> !synced) && t.cur.error & 0xEF == s.cur.error & 0xEF
            && t == s.(err := true, cur := s.cur.(error := t.cur.error))
  {
  }

  /** Queries take nothing but the notice. */
  lemma QueryTakesNotice(s: State)
    ensures Step(s, CurrentEvent) == s.(err := false)
  {
  }
}
