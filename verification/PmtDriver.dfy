/** The photomultiplier driver as it works: flags and counters updated in place, records in a ring of 5000 slots. */
module PmtDriver {
  import opened Pmt

  // ---------------------------------------------------------------- the ring

  /** The ring holds the newest 5000 of all records stored, record k in slot k mod 5000. */
  ghost predicate Ring(slots: seq<Integ>, stored: seq<Integ>) {
    |slots| == BUFFER &&
    forall k :: 0 <= k < |stored| && |stored| - k <= BUFFER ==> slots[k % BUFFER] == stored[k]
  }

  lemma SlotsDiffer(k: nat, n: nat)
    requires k < n && n - k < BUFFER
    ensures k % BUFFER != n % BUFFER
  {
    assert n - k == BUFFER * (n / BUFFER - k / BUFFER) + (n % BUFFER - k % BUFFER);
  }

  lemma RingPush(slots: seq<Integ>, stored: seq<Integ>, r: Integ)
    requires Ring(slots, stored)
    ensures Ring(slots[|stored| % BUFFER := r], stored + [r])
  {
    forall k | 0 <= k < |stored| && |stored| + 1 - k <= BUFFER
      ensures slots[|stored| % BUFFER := r][k % BUFFER] == stored[k]
    {
      SlotsDiffer(k, |stored|);
    }
  }

  /** What a slot holds is the newest record stored in it. */
  lemma RingRead(slots: seq<Integ>, stored: seq<Integ>, i: nat)
    requires Ring(slots, stored) && i < |stored|
    ensures slots[i % BUFFER] == stored[SlotHolder(i, |stored|)]
  {
    var j := SlotHolder(i, |stored|);
    assert slots[j % BUFFER] == stored[j];
  }

  // ---------------------------------------------------------------- the driver

  class Driver {
    var probe: bool
    var busy: bool
    var ready: bool
    var err: bool
    var numOpen: nat
    var cur: Integ
    var cmd: Cmd
    const buffer: array<Integ>
    var curIdx: nat
    var userIdx: nat
    var limit: nat
    var probeCounter: int
    ghost var stored: seq<Integ>
    ghost var past: History

    ghost predicate Valid()
      reads this, buffer
    {
      Ring(buffer[..], stored) && curIdx == |stored|
    }

    ghost function State(): State
      reads this
    {
      Pmt.State(probe, busy, ready, err, numOpen, cur, cmd, stored, userIdx, limit, probeCounter, past)
    }

    constructor (reading: nat)
      ensures Valid() && fresh(buffer)
      ensures State() == Boot(reading)
    {
      probe, busy, ready, err := false, false, false, false;
      numOpen := 0;
      cur := Integ(0, 0, TICK_NS, 0, 0, reading, 0);
      cmd := Cmd(0, 0, 0, 0);
      buffer := new Integ[BUFFER](_ => Integ(0, 0, 0, 0, 0, 0, 0));
      curIdx, userIdx := 0, 0;
      limit := WARN_RATE;
      probeCounter := 0;
      stored := [];
      past := History([], [], 0, [], 0);
    }

    /** The only effect of an unlawful rate that is new: the shutter closure is ordered. */
    method CheckRate(counts: nat, periodNs: nat) returns (newErr: bv8)
      requires Valid() && periodNs > 0
      modifies this`past
      ensures Valid()
      ensures newErr == CheckCounts(old(State()), counts, periodNs)
      ensures State() == Closed(old(State()), counts, periodNs)
    {
      hide Ring, Has;
      newErr := cur.error & ERR_TIME_SYNC;
      var rate := counts * (SECOND_NS / periodNs);
      if rate >= limit {
        newErr := newErr | ERR_OVERILLUM;
        if !Has(cur.error, ERR_OVERILLUM) {
          past := past.(closes := past.closes + 1);
        }
      }
      if rate >= WARN_RATE {
        newErr := newErr | ERR_WARN;
      }
    }

    method StoreCurrent()
      requires Valid()
      modifies this`curIdx, this`stored, buffer
      ensures Valid()
      ensures State() == old(State()).(stored := old(stored) + [cur])
    {
      RingPush(buffer[..], stored, cur);
      ghost var was := buffer[..];
      buffer[curIdx % BUFFER] := cur;
      assert buffer[..] == was[|stored| % BUFFER := cur];
      curIdx := curIdx + 1;
      stored := stored + [cur];
    }

    method BeginInteg()
      requires Valid()
      modifies this
      ensures Valid()
      ensures State() == StartInteg(old(State()))
    {
      assert Ring(buffer[..], []);
      hide Ring;
      curIdx := 0;
      userIdx := 0;
      cur := cur.(period := 0);
      cur := cur.(prebin := 0);
      cur := cur.(reps := 0);
      cur := cur.(counts := 0);
      cur := cur.(error := 0);
      busy := true;
      probe, ready := false, false;
      stored := [];
      past := History([], [], 0, [], past.closes);
    }

    method Cancel()
      requires Valid()
      modifies this, buffer
      ensures Valid()
      ensures State() == CancelInteg(old(State()))
    {
      StoreCurrent();
      hide Ring;
      busy, probe := false, false;
      cur := cur.(counts := 0);
      cur := cur.(period := TICK_NS);
      cur := cur.(prebin := 0);
    }

    method Finish()
      requires Valid()
      modifies this
      ensures Valid()
      ensures State() == FinishInteg(old(State()))
    {
      hide Ring;
      busy, probe := false, false;
      cur := cur.(counts := 0);
      cur := cur.(period := TICK_NS);
      cur := cur.(prebin := 0);
    }

    method Order(order: Cmd) returns (reply: Reply)
      requires Valid()
      modifies this, buffer
      ensures Valid()
      ensures reply == OrderReply(old(State()), order)
      ensures State() == OrderInteg(old(State()), order)
    {
      hide Ring;
      if order.mode == 0 {
        Cancel();
        return Ok;
      }
      if busy || probe {
        return Perm;
      }
      if order.mode != 1 || order.length < 1 || order.prebin < 1 || order.reps < 1 {
        return Inval;
      }
      cmd := order;
      probeCounter := PROBE_SECONDS;
      probe := true;
      return Ok;
    }

    /** An error joins those not yet read, or becomes the one reported. */
    method RaiseError(newErr: bv8)
      requires Valid()
      modifies this`err, this`cur
      ensures Valid()
      ensures State() == NoteError(old(State()), newErr)
    {
      hide Ring;
      if err {
        cur := cur.(error := cur.error | newErr);
      } else {
        if newErr != 0 {
          err := true;
        }
        cur := cur.(error := newErr);
      }
    }

    method LookAtCounter(unit: int, ms: int, reading: nat) returns (newErr: bv8)
      requires Valid()
      modifies this`cur, this`past
      ensures Valid()
      ensures newErr == CheckCounts(old(State()), reading, TICK_NS)
      ensures State() == Look(old(State()), unit, ms, reading)
    {
      hide Ring, Has, Rate, NewError;
      cur := cur.(startS := unit);
      cur := cur.(startMs := ms);
      cur := cur.(counts := reading);
      newErr := CheckRate(cur.counts, TICK_NS);
    }

    method JudgeProbe(unit: int, ms: int, reading: nat) returns (newErr: bv8)
      requires Valid()
      modifies this`cur, this`past, this`err
      ensures Valid()
      ensures newErr == ProbeError(old(State()), reading)
      ensures State() == Probed(old(State()), unit, ms, reading)
    {
      hide Ring, Has, Look, CheckCounts;
      LookKeeps(State(), unit, ms, reading);
      newErr := LookAtCounter(unit, ms, reading);
      var overflow := cur.counts * cmd.length;
      if overflow >= COUNTER_MAX {
        newErr := newErr | ERR_OVERFLOW;
      }
      RaiseError(newErr);
    }

    method CheckProbe(unit: int, ms: int, reading: nat)
      requires Valid()
      modifies this, buffer
      ensures Valid()
      ensures State() == ProbeTick(old(State()), unit, ms, reading)
    {
      hide Ring, Has, Probed, ProbeError;
      var newErr := JudgeProbe(unit, ms, reading);
      if Has(cur.error, CRIT) {
        Cancel();
        cur := cur.(error := newErr & !ERR_OVERFLOW);
        return;
      }
      if ms == 0 {
        probeCounter := probeCounter - 1;
      }
      if probeCounter == 0 {
        BeginInteg();
      }
    }

    method CheckIdle(unit: int, ms: int, reading: nat)
      requires Valid()
      modifies this, buffer
      ensures Valid()
      ensures State() == IdleTick(old(State()), unit, ms, reading)
    {
      hide Ring, Has, Look, CheckCounts;
      LookKeeps(State(), unit, ms, reading);
      var newErr := LookAtCounter(unit, ms, reading);
      if numOpen == 0 {
        cur := cur.(error := newErr);
        err := newErr != 0;
      } else {
        RaiseError(newErr);
      }
    }

    /** A reading that changes the error state adds to it. */
    method RaiseSampleError(newErr: bv8)
      requires Valid()
      modifies this`err, this`cur
      ensures Valid()
      ensures err == (old(err) || (old(cur.error) != newErr && newErr != 0))
      ensures cur == old(cur).(error := Joined(old(cur.error), newErr))
    {
      hide Ring, Both;
      if cur.error != newErr {
        if newErr != 0 && !err {
          err := true;
        }
        cur := cur.(error := Both(cur.error, newErr));
      }
    }

    /** Reads the counter and adds the reading to the current record. */
    method TakeSample(reading: nat) returns (newErr: bv8)
      requires Valid()
      modifies this`cur, this`err, this`past
      ensures Valid()
      ensures newErr == CheckCounts(old(State()), reading, old(cur.period) + TICK_NS)
      ensures State() == AddSample(old(State()), reading)
    {
      hide Ring, Has, CheckCounts, Closed, Joined;
      newErr := CheckRate(reading, cur.period + TICK_NS);
      ClosedKeeps(old(State()), reading, old(cur.period) + TICK_NS);
      cur := cur.(period := cur.period + TICK_NS);
      cur := cur.(counts := cur.counts + reading);
      cur := cur.(prebin := cur.prebin + 1);
      RaiseSampleError(newErr);
      past := past.(part := past.part + [reading]);
    }

    method EndRecord(unit: int, ms: int, newErr: bv8)
      requires Valid()
      modifies this, buffer
      ensures Valid()
      ensures State() == CloseRecord(old(State()), unit, ms, newErr)
    {
      StoreCurrent();
      hide Ring;
      ready := true;
      cur := cur.(reps := cur.reps + 1);
      cur := cur.(startS := unit);
      cur := cur.(startMs := ms);
      cur := cur.(period := 0);
      cur := cur.(prebin := 0);
      cur := cur.(counts := 0);
      cur := cur.(error := newErr);
      past := past.(bins := past.bins + [past.part], part := []);
      if cur.reps >= cmd.reps {
        Finish();
      }
    }

    method CheckInteg(unit: int, ms: int, reading: nat)
      requires Valid()
      modifies this, buffer
      ensures Valid()
      ensures State() == BusyTick(old(State()), unit, ms, reading)
    {
      hide Ring, Has, CheckCounts, AddSample, CloseRecord, CancelInteg;
      past := past.(ticks := past.ticks + 1);
      if cur.period + TICK_NS < cmd.length * TICK_NS {
        cur := cur.(period := cur.period + TICK_NS);
        return;
      }
      var newErr := TakeSample(reading);
      SameRate(old(State()), old(State()).(past := old(past).(ticks := old(past).ticks + 1)), reading);
      if Has(cur.error, CRIT) {
        Cancel();
        return;
      }
      if cur.prebin < cmd.prebin {
        cur := cur.(period := 0);
        return;
      }
      EndRecord(unit, ms, newErr);
    }

    method MillisecHandler(unit: int, ms: int, reading: nat)
      requires Valid()
      modifies this, buffer
      ensures Valid()
      ensures State() == Tick(old(State()), unit, ms, reading)
    {
      hide Ring, ProbeTick, BusyTick, IdleTick;
      if probe {
        CheckProbe(unit, ms, reading);
        return;
      }
      if busy {
        CheckInteg(unit, ms, reading);
        return;
      }
      CheckIdle(unit, ms, reading);
    }

    method TimeSyncHandler(synced: bool)
      requires Valid()
      modifies this
      ensures Valid()
      ensures State() == TimeSync(old(State()), synced)
    {
      hide Ring;
      if synced {
        cur := cur.(error := cur.error & !ERR_TIME_SYNC);
      } else {
        cur := cur.(error := cur.error | ERR_TIME_SYNC);
      }
      err := true;
    }

    /** Hands the reader the ring slot of the next record: that record itself while at most 5000 wait. */
    method ReadNext() returns (reply: Reply, r: Integ)
      requires Valid()
      modifies this
      ensures Valid()
      ensures reply == ReadReply(old(State()))
      ensures reply == Ok ==> r == ReadRecord(old(State()))
      ensures reply == Ok && old(curIdx - userIdx) <= BUFFER ==> r == old(stored)[old(userIdx)]
      ensures State() == ReadData(old(State()))
    {
      r := cur;
      if !ready {
        return Inval, r;
      }
      if userIdx >= curIdx {
        return Again, r;
      }
      RingRead(buffer[..], stored, userIdx);
      r := buffer[userIdx % BUFFER];
      hide Ring;
      past := past.(delivered := past.delivered + [r]);
      userIdx := userIdx + 1;
      if userIdx >= curIdx {
        ready := false;
      }
      return Ok, r;
    }

    method CurrentData() returns (r: Integ)
      requires Valid()
      modifies this`err
      ensures Valid() && r == cur
      ensures State() == GetCurrent(old(State()))
    {
      r := cur;
      err := false;
    }

    method SetOverIllumination(value: nat) returns (ok: bool)
      requires Valid()
      modifies this`limit
      ensures Valid() && (ok <==> value <= MAX_RATE)
      ensures State() == SetLimit(old(State()), value)
    {
      if value > MAX_RATE {
        limit := WARN_RATE;
        return false;
      }
      limit := value;
      return true;
    }

    method ChooseChannel(channel: nat, reading: nat) returns (reply: Reply)
      requires Valid()
      modifies this`cur
      ensures Valid()
      ensures reply == (if old(busy) || old(probe) then Again else if channel >= 4 then Inval else Ok)
      ensures State() == SetChannel(old(State()), channel, reading)
    {
      if busy || probe {
        return Again;
      }
      if channel >= 4 {
        return Inval;
      }
      cur := cur.(counts := reading);
      return Ok;
    }

    method OpenDevice()
      requires Valid()
      modifies this`numOpen
      ensures Valid()
      ensures State() == Open(old(State()))
    {
      numOpen := (numOpen + 1) % 256;
    }

    method ReleaseDevice()
      requires Valid()
      modifies this, buffer
      ensures Valid()
      ensures State() == Release(old(State()))
    {
      hide Ring;
      numOpen := (numOpen + 255) % 256;
      if numOpen > 0 {
        return;
      }
      limit := WARN_RATE;
      Cancel();
    }
  }

  lemma LookKeeps(s: State, unit: int, ms: int, reading: nat)
    ensures var t := Look(s, unit, ms, reading);
            && t.cur == s.cur.(startS := unit, startMs := ms, counts := reading) && t.cmd == s.cmd
            && t.numOpen == s.numOpen && t.err == s.err && t.probeCounter == s.probeCounter
  {
    hide Has, Rate;
  }

  lemma ClosedKeeps(s: State, counts: nat, periodNs: nat)
    requires periodNs > 0
    ensures var t := Closed(s, counts, periodNs); t == s.(past := t.past)
  {
  }

  lemma SameRate(s: State, t: State, reading: nat)
    requires t == s.(past := t.past)
    ensures CheckCounts(t, reading, t.cur.period + TICK_NS) == CheckCounts(s, reading, s.cur.period + TICK_NS)
  {
    hide Rate, NewError;
  }
}
