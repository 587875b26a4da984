/** The photomultiplier driver as a state machine on values: probe, integrate, idle, one millisecond per tick. */
module Pmt {

  const ERR_WARN: bv8 := 0x02
  const ERR_OVERILLUM: bv8 := 0x04
  const ERR_OVERFLOW: bv8 := 0x08
  const ERR_TIME_SYNC: bv8 := 0x10
  /** Zero counts, over-illumination, overflow. */
  const CRIT: bv8 := 0x0D

  const BUFFER := 5000
  const MAX_RATE := 700000
  const WARN_RATE := 200000
  const COUNTER_MAX := 60000
  const PROBE_SECONDS := 3
  /** A tick, and the shortest sample period, in nanoseconds. */
  const TICK_NS := 1000000
  const SECOND_NS := 1000000000

  datatype Integ = Integ(startS: int, startMs: int, period: nat, prebin: nat, reps: nat, counts: nat, error: bv8)

  datatype Cmd = Cmd(mode: int, length: nat, prebin: nat, reps: nat)

  /** What happened since the integration started: the readings of each finished record, those of the current one,
      the ticks; and the records handed to the reader. closes counts the shutter closures ordered. */
  datatype History = History(bins: seq<seq<nat>>, part: seq<nat>, ticks: nat, delivered: seq<Integ>, closes: nat)

  /** stored are all records stored since the integration started; the driver keeps the last 5000 of them. */
  datatype State = State(probe: bool, busy: bool, ready: bool, err: bool, numOpen: nat, cur: Integ, cmd: Cmd,
                         stored: seq<Integ>, userIdx: nat, limit: nat, probeCounter: int, past: History)

  // ---------------------------------------------------------------- error bits

  predicate Has(error: bv8, bits: bv8) {
    error & bits != 0
  }

  function Rate(counts: nat, periodNs: nat): nat
    requires periodNs > 0
  {
    counts * (SECOND_NS / periodNs)
  }

  function NewError(before: bv8, over: bool, warn: bool): bv8 {
    (before & ERR_TIME_SYNC) | (if over then ERR_OVERILLUM else 0) | (if warn then ERR_WARN else 0)
  }

  function CheckCounts(s: State, counts: nat, periodNs: nat): bv8
    requires periodNs > 0
  {
    NewError(s.cur.error, Rate(counts, periodNs) >= s.limit, Rate(counts, periodNs) >= WARN_RATE)
  }

  /** The shutter is closed when over-illumination is new. */
  function Closed(s: State, counts: nat, periodNs: nat): State
    requires periodNs > 0
  {
    if Rate(counts, periodNs) >= s.limit && !Has(s.cur.error, ERR_OVERILLUM)
    then s.(past := s.past.(closes := s.past.closes + 1)) else s
  }

  lemma NewErrorMeans(before: bv8, over: bool, warn: bool)
    ensures Has(NewError(before, over, warn), CRIT) <==> over
    ensures Has(NewError(before, over, warn), ERR_OVERILLUM) <==> over
  {
  }

  lemma ErrorBits(a: bv8, b: bv8)
    ensures Has(a | b, CRIT) <==> Has(a, CRIT) || Has(b, CRIT)
    ensures Has(b, ERR_OVERILLUM) ==> Has(b, CRIT)
    ensures Has(b | ERR_OVERFLOW, CRIT)
    ensures !Has(a, CRIT) ==> !Has(a, ERR_OVERILLUM)
    ensures !Has(a, CRIT) ==> !Has(a & !ERR_TIME_SYNC, CRIT) && !Has(a | ERR_TIME_SYNC, CRIT)
  {
  }

  // ---------------------------------------------------------------- starting and ending

  function StartInteg(s: State): State {
    s.(probe := false, busy := true, ready := false,
       cur := s.cur.(period := 0, prebin := 0, reps := 0, counts := 0, error := 0),
       stored := [], userIdx := 0,
       past := History([], [], 0, [], s.past.closes))
  }

  /** Stores what there is and stops; also when nothing is under way. */
  function CancelInteg(s: State): State {
    s.(probe := false, busy := false, stored := s.stored + [s.cur],
       cur := s.cur.(counts := 0, period := TICK_NS, prebin := 0))
  }

  function FinishInteg(s: State): State {
    s.(probe := false, busy := false, cur := s.cur.(counts := 0, period := TICK_NS, prebin := 0))
  }

  datatype Reply = Ok | Perm | Inval | Again

  function OrderReply(s: State, cmd: Cmd): Reply {
    if cmd.mode == 0 then Ok
    else if s.busy || s.probe then Perm
    else if cmd.mode != 1 || cmd.length < 1 || cmd.prebin < 1 || cmd.reps < 1 then Inval
    else Ok
  }

  function OrderInteg(s: State, cmd: Cmd): State {
    if cmd.mode == 0 then CancelInteg(s)
    else if OrderReply(s, cmd) != Ok then s
    else s.(cmd := cmd, probeCounter := PROBE_SECONDS, probe := true)
  }

  // ---------------------------------------------------------------- ticks

  /** An error is collected until it has been reported and read. */
  function NoteError(s: State, e: bv8): State {
    if s.err then s.(cur := s.cur.(error := s.cur.error | e))
    else s.(err := e != 0, cur := s.cur.(error := e))
  }

  function Look(s: State, unit: int, ms: int, reading: nat): State {
    Closed(s.(cur := s.cur.(startS := unit, startMs := ms, counts := reading)), reading, TICK_NS)
  }

  function IdleTick(s: State, unit: int, ms: int, reading: nat): State {
    var e := CheckCounts(s, reading, TICK_NS);
    var t := Look(s, unit, ms, reading);
    if s.numOpen == 0 then t.(err := e != 0, cur := t.cur.(error := e)) else NoteError(t, e)
  }

  /** The error a probe tick finds: also an overflow that the ordered sample length would cause. */
  function ProbeError(s: State, reading: nat): bv8 {
    var e := CheckCounts(s, reading, TICK_NS);
    if reading * s.cmd.length >= COUNTER_MAX then e | ERR_OVERFLOW else e
  }

  /** The state in which a probe tick decides whether to go on. */
  function Probed(s: State, unit: int, ms: int, reading: nat): State {
    NoteError(Look(s, unit, ms, reading), ProbeError(s, reading))
  }

  function ProbeTick(s: State, unit: int, ms: int, reading: nat): State {
    var e := ProbeError(s, reading);
    var t := Probed(s, unit, ms, reading);
    if Has(t.cur.error, CRIT) then
      var c := CancelInteg(t);
      c.(cur := c.cur.(error := e & !ERR_OVERFLOW))
    else
      var u := t.(probeCounter := if ms == 0 then t.probeCounter - 1 else t.probeCounter);
      if u.probeCounter == 0 then StartInteg(u) else u
  }

  /** The sample period is over. */
  predicate SampleDue(s: State) {
    s.cur.period + TICK_NS >= s.cmd.length * TICK_NS
  }

  function Both(a: bv8, b: bv8): bv8 {
    a | b
  }

  /** A reading that changes the error state adds to it. */
  function Joined(error: bv8, newError: bv8): bv8 {
    if error != newError then Both(error, newError) else error
  }

  /** Adds a reading to the current record. */
  function AddSample(s: State, reading: nat): State {
    var period := s.cur.period + TICK_NS;
    var e := CheckCounts(s, reading, period);
    var t := Closed(s, reading, period);
    t.(err := t.err || (s.cur.error != e && e != 0),
       cur := t.cur.(period := period, counts := t.cur.counts + reading, prebin := t.cur.prebin + 1,
                     error := Joined(s.cur.error, e)),
       past := t.past.(part := t.past.part + [reading]))
  }

  /** Stores the finished record and begins the next one, or ends the integration. */
  function CloseRecord(s: State, unit: int, ms: int, e: bv8): State {
    var t := s.(stored := s.stored + [s.cur], ready := true,
                cur := Integ(unit, ms, 0, 0, s.cur.reps + 1, 0, e),
                past := s.past.(bins := s.past.bins + [s.past.part], part := []));
    if t.cur.reps >= t.cmd.reps then FinishInteg(t) else t
  }

  function BusyTick(s: State, unit: int, ms: int, reading: nat): State {
    var s1 := s.(past := s.past.(ticks := s.past.ticks + 1));
    if !SampleDue(s) then s1.(cur := s.cur.(period := s.cur.period + TICK_NS))
    else
      var t := AddSample(s1, reading);
      if Has(t.cur.error, CRIT) then CancelInteg(t)
      else if t.cur.prebin < t.cmd.prebin then t.(cur := t.cur.(period := 0))
      else CloseRecord(t, unit, ms, CheckCounts(s, reading, s.cur.period + TICK_NS))
  }

  function Tick(s: State, unit: int, ms: int, reading: nat): State {
    if s.probe then ProbeTick(s, unit, ms, reading)
    else if s.busy then BusyTick(s, unit, ms, reading)
    else IdleTick(s, unit, ms, reading)
  }

  // ---------------------------------------------------------------- the other entry points

  function TimeSync(s: State, synced: bool): State {
    s.(err := true,
       cur := s.cur.(error := if synced then s.cur.error & !ERR_TIME_SYNC else s.cur.error | ERR_TIME_SYNC))
  }

  /** The newest stored record in the buffer slot of index i. */
  function SlotHolder(i: nat, n: nat): (j: nat)
    requires i < n
    ensures i <= j < n && j % BUFFER == i % BUFFER && n - j <= BUFFER
    ensures n - i <= BUFFER ==> j == i
  {
    i + (n - 1 - i) / BUFFER * BUFFER
  }

  function ReadReply(s: State): Reply {
    if !s.ready then Inval else if s.userIdx >= |s.stored| then Again else Ok
  }

  function ReadRecord(s: State): Integ
    requires ReadReply(s) == Ok
  {
    s.stored[SlotHolder(s.userIdx, |s.stored|)]
  }

  function ReadData(s: State): State {
    if ReadReply(s) != Ok then s
    else s.(userIdx := s.userIdx + 1, ready := s.userIdx + 1 < |s.stored|,
            past := s.past.(delivered := s.past.delivered + [ReadRecord(s)]))
  }

  function GetCurrent(s: State): State {
    s.(err := false)
  }

  function SetLimit(s: State, value: nat): State {
    s.(limit := if value > MAX_RATE then WARN_RATE else value)
  }

  function SetChannel(s: State, channel: nat, reading: nat): State {
    if s.busy || s.probe || channel >= 4 then s else s.(cur := s.cur.(counts := reading))
  }

  function Open(s: State): State {
    s.(numOpen := (s.numOpen + 1) % 256)
  }

  /** The last release cancels. */
  function Release(s: State): State {
    var t := s.(numOpen := (s.numOpen + 255) % 256);
    if t.numOpen > 0 then t else CancelInteg(t.(limit := WARN_RATE))
  }

  /** The driver as loaded. */
  function Boot(reading: nat): State {
    State(false, false, false, false, 0, Integ(0, 0, TICK_NS, 0, 0, reading, 0), Cmd(0, 0, 0, 0), [], 0, WARN_RATE, 0,
          History([], [], 0, [], 0))
  }

  // ---------------------------------------------------------------- accounting

  function Sum(xs: seq<nat>): nat {
    if xs == [] then 0 else Sum(xs[..|xs| - 1]) + xs[|xs| - 1]
  }

  function SumOfBins(bins: seq<seq<nat>>): nat {
    if bins == [] then 0 else SumOfBins(bins[..|bins| - 1]) + Sum(bins[|bins| - 1])
  }

  function CountsOf(rs: seq<Integ>): nat {
    if rs == [] then 0 else CountsOf(rs[..|rs| - 1]) + rs[|rs| - 1].counts
  }

  /** All readings taken since the integration started. */
  function AllReadings(h: History): nat {
    SumOfBins(h.bins) + Sum(h.part)
  }

  /** Ticks that a number of finished records and samples take. */
  function TicksFor(cmd: Cmd, records: nat, samples: nat): nat {
    cmd.length * (cmd.prebin * records + samples)
  }

  predicate RecordOf(r: Integ, k: nat, bin: seq<nat>, cmd: Cmd) {
    |bin| == cmd.prebin && r.counts == Sum(bin) && r.prebin == cmd.prebin && r.reps == k &&
    r.period == cmd.length * TICK_NS && !Has(r.error, CRIT)
  }

  ghost predicate RecordsMatch(rs: seq<Integ>, bins: seq<seq<nat>>, cmd: Cmd) {
    |rs| == |bins| && forall k :: 0 <= k < |rs| ==> RecordOf(rs[k], k, bins[k], cmd)
  }

  /** Each stored record is the sum of its own readings, the current record of those since; and the ticks are
      those of the samples taken, plus the ones of the sample under way. */
  ghost predicate Accounted(s: State) {
    && RecordsMatch(s.stored, s.past.bins, s.cmd)
    && s.cur.reps == |s.stored| < s.cmd.reps
    && s.cur.prebin == |s.past.part| < s.cmd.prebin
    && s.cur.counts == Sum(s.past.part)
    && s.past.ticks >= TicksFor(s.cmd, |s.past.bins|, |s.past.part|)
    && s.cur.period == (s.past.ticks - TicksFor(s.cmd, |s.past.bins|, |s.past.part|)) * TICK_NS
    && s.cur.period < s.cmd.length * TICK_NS
  }

  predicate ValidCmd(cmd: Cmd) {
    cmd.mode == 1 && cmd.length >= 1 && cmd.prebin >= 1 && cmd.reps >= 1
  }

  ghost predicate Inv(s: State) {
    && !(s.probe && s.busy)
    && (s.probe || s.busy ==> ValidCmd(s.cmd))
    && (s.probe ==> 1 <= s.probeCounter <= PROBE_SECONDS)
    && (s.busy ==> !Has(s.cur.error, CRIT) && Accounted(s))
    && |s.past.delivered| == s.userIdx <= |s.stored|
    && s.numOpen < 256
  }
}
