/** The PLC driver's link protocol as a state machine on values: one request at a time, a response timer,
    a queued status poll, and commands that are held back while a response is awaited. */
module PlcProtocol {
  import opened PlcCommand
  import opened PlcStatus

  datatype Await = Nothing | StatResp | CmdResp

  /** written is the last command the line accepted; collisions counts requests written while one was awaited. */
  datatype Link = Link(await: Await, pending: bool, timerArmed: bool, pollQueued: bool, commOk: bool, newStat: bool,
                       cmd: Text, stat: Status, chars: Text, handset: seq<(bv8, bv8)>, written: Text, collisions: nat)

  predicate WF(l: Link) {
    IsCmd(l.cmd) && |l.chars| == STAT_LEN + 1
  }

  // ---------------------------------------------------------------- the first command string

  /** strncpy: nothing but NULs after a NUL. */
  function CopyString(s: Text): (r: Text)
    ensures |r| == |s|
  {
    if s == [] then [] else if s[0] == 0 then seq(|s|, _ => 0) else [s[0]] + CopyString(s[1..])
  }

  function InitMirrorEht(chars: Text): bv8
    requires |chars| >= STAT_LEN
  {
    (if HexVal(chars[28]) & 0x4 != 0 then 0x2 else if HexVal(chars[28]) & 0x2 != 0 then 0x1 else 0) |
    (if chars[17] & 0x1 == 0 then 0x8 else 0)
  }

  const SIXTEEN_ZEROS: Text :=
    [0x30, 0x30, 0x30, 0x30, 0x30, 0x30, 0x30, 0x30, 0x30, 0x30, 0x30, 0x30, 0x30, 0x30, 0x30, 0x30]

  /** Dome at 0, flop limits 10 and 5, shutter, tension and mirror as reported, all one-shots off. */
  function InitBody(chars: Text): (r: Text)
    requires |chars| >= STAT_LEN
    ensures |r| == FCS_TERM
  {
    HEAD + [0x30, 0x30, 0x30, 0x30, 0x31, 0x30, 0x30, 0x35] +
    [if HexVal(chars[18]) & 0x1 != 0 then 0x31 else 0x30, 0x30, 0x30, 0x38, 0x30, 0x30, 0x30,
     HexChar(InitMirrorEht(chars))] +
    [chars[34], 0x30, chars[32], 0x30] + CopyString(chars[19..23]) + [0x30, 0x31, 0x30, 0x35] + SIXTEEN_ZEROS
  }

  function InitCmd(chars: Text): (r: Text)
    requires |chars| >= STAT_LEN
    ensures IsCmd(r)
  {
    Stamp(InitBody(chars) + [0, 0, 0, 0, 0])
  }

  predicate Initialised(cmd: Text)
    requires IsCmd(cmd)
  {
    cmd[0] != 0
  }

  /** The first command string is initialised, has digits in its fields, and orders nothing. */
  lemma InitOrdersNothing(chars: Text)
    requires |chars| >= STAT_LEN
    ensures var cmd := InitCmd(chars);
            Initialised(cmd) && HexFields(cmd) && forall o: OneShot :: !Ordered(cmd, o)
  {
    var body := InitBody(chars);
    StampKeepsBody(body + [0, 0, 0, 0, 0]);
    assert InitCmd(chars)[..FCS_TERM] == body;
    assert forall i :: 0 <= i < FCS_TERM ==> InitCmd(chars)[i] == body[i];
    assert InitMirrorEht(chars) <= 15;
    HexRoundTrip(InitMirrorEht(chars));
  }

  // ---------------------------------------------------------------- sending

  function Wrote(l: Link): Link {
    l.(collisions := if l.await == Nothing then l.collisions else l.collisions + 1)
  }

  /** ok: the line accepts the write. */
  function SendStatReq(l: Link, ok: bool): Link {
    if l.await != Nothing then l.(pollQueued := true)
    else if !ok then l.(commOk := false, pollQueued := true)
    else Wrote(l).(commOk := true, await := StatResp, timerArmed := true)
  }

  function SendCmd(l: Link, ok: bool): (m: Link)
    requires WF(l)
    ensures WF(m)
  {
    if l.await != Nothing then l.(pending := true)
    else
      var c := Stamp(l.cmd);
      if !ok then l.(cmd := c, commOk := false, pending := true)
      else Wrote(l).(cmd := c, written := c, commOk := true, await := CmdResp, timerArmed := true)
  }

  function Order(l: Link, r: Request, ok: bool): (m: Link)
    requires WF(l)
    ensures WF(m)
  {
    var m := l.(cmd := Apply(l.cmd, r));
    if m.await == Nothing then SendCmd(m, ok) else m.(pending := true)
  }

  function TimedOut(l: Link): Link {
    l.(timerArmed := false, await := Nothing, commOk := false, pollQueued := true)
  }

  function Poll(l: Link, ok: bool): Link {
    SendStatReq(l.(pollQueued := false), ok)
  }

  // ---------------------------------------------------------------- responses

  const CMD_RESP: Text := [0x40, 0x30, 0x30, 0x57, 0x44, 0x30, 0x30, 0x35, 0x33, 0x2A]
  const STAT_RESP: Text := [0x40, 0x30, 0x30, 0x52, 0x44]

  predicate Complete(buf: Text) {
    |buf| > 0 && buf[0] == AT && buf[|buf| - 1] == STAR
  }

  predicate ValidCmdResp(buf: Text) {
    |buf| + 1 >= 11 && buf[..10] == CMD_RESP
  }

  /** Only the second digit of the end code is looked at, unless one of them is not a digit. */
  predicate EndCodeOk(buf: Text)
    requires |buf| >= 7
  {
    HexVal(buf[5]) == PlcCommand.INVALID || HexVal(buf[6]) == PlcCommand.INVALID || HexVal(buf[6]) == 0
  }

  predicate ValidStatResp(buf: Text) {
    |buf| + 1 >= STAT_LEN && buf[..5] == STAT_RESP && CheckFcs(buf, |buf| + 1) && EndCodeOk(buf)
  }

  datatype Verdict = Bad | NoChange | Change

  function TakeCmdResp(l: Link, buf: Text): (r: (Link, Verdict))
    requires WF(l)
    ensures WF(r.0)
  {
    if !ValidCmdResp(buf) then (l, Bad)
    else (if l.pending then l else l.(cmd := ClearOneShots(l.cmd)), NoChange)
  }

  /** The buffer ends with a NUL. */
  function ParsedBy(l: Link, buf: Text): (p: Parsed)
    requires WF(l) && |buf| + 1 >= STAT_LEN
    ensures Wide(p) && |p.chars| == |l.chars|
  {
    Parse(Parsed(l.stat, l.chars, false, l.cmd, false, l.handset), buf + [0])
  }

  function TakeStatResp(l: Link, buf: Text): (r: (Link, Verdict))
    requires WF(l)
    ensures WF(r.0)
  {
    if !ValidStatResp(buf) then (l, Bad)
    else
      var p := ParsedBy(l, buf);
      (l.(stat := p.stat, chars := p.chars, cmd := p.cmd, handset := p.handset, pending := l.pending || p.withdrawn),
       if p.changed then Change else NoChange)
  }

  function EnsureInit(l: Link): (m: Link)
    requires WF(l)
    ensures WF(m)
  {
    if Initialised(l.cmd) then l else l.(cmd := InitCmd(l.chars))
  }

  function Take(l: Link, buf: Text): (r: (Link, Verdict))
    requires WF(l)
    ensures WF(r.0)
  {
    match l.await
    case CmdResp => TakeCmdResp(l, buf)
    case StatResp => var r := TakeStatResp(l, buf); (EnsureInit(r.0), r.1)
    case Nothing => (l, NoChange)
  }

  /** After a good response: the command held back, or else the next status request. */
  function Continue(l: Link, ok: bool): (m: Link)
    requires WF(l)
    ensures WF(m)
  {
    if l.pending then SendCmd(l, ok).(pending := false) else SendStatReq(l, ok)
  }

  function Respond(l: Link, buf: Text, ok: bool): (m: Link)
    requires WF(l)
    ensures WF(m)
  {
    if !Complete(buf) then l
    else
      var (m, v) := Take(l, buf);
      var n := m.(await := Nothing, timerArmed := false);
      if v == Bad then n.(commOk := false, pollQueued := true)
      else Continue(n.(commOk := true, newStat := n.newStat || v == Change), ok)
  }

  // ---------------------------------------------------------------- runs

  datatype Event =
    | OrderEvent(request: Request, ok: bool)
    | PollEvent(ok: bool)
    | TimeoutEvent
    | ResponseEvent(buf: Text, ok: bool)
    | ReadEvent

  /** The poll and the timeout happen only while queued or armed. */
  function Step(l: Link, e: Event): (m: Link)
    requires WF(l)
    ensures WF(m)
  {
    match e
    case OrderEvent(r, ok) => Order(l, r, ok)
    case PollEvent(ok) => if l.pollQueued then Poll(l, ok) else l
    case TimeoutEvent => if l.timerArmed then TimedOut(l) else l
    case ResponseEvent(buf, ok) => Respond(l, buf, ok)
    case ReadEvent => l.(newStat := false)
  }

  const NO_CMD: Text := seq(CMD_LEN + 1, _ => 0)

  /** Loading the driver sends the first status request. */
  function Load(ok: bool): Link {
    SendStatReq(Link(Nothing, false, false, false, false, false, NO_CMD, NO_STATUS, seq(STAT_LEN + 1, _ => 0),
                     [], NO_CMD, 0), ok)
  }

  /** Awaiting means armed; an undisturbed command is the one written; nothing was ever written out of turn. */
  predicate Inv(l: Link) {
    && WF(l)
    && (l.await != Nothing <==> l.timerArmed)
    && (l.await == CmdResp && !l.pending ==> l.cmd == l.written)
    && IsCmd(l.written)
    && l.collisions == 0
    && (Initialised(l.cmd) ==> HexFields(l.cmd))
  }

  /** Something will happen by itself. */
  predicate Alive(l: Link) {
    l.await != Nothing || l.pollQueued
  }

  lemma LoadKeeps(ok: bool)
    ensures Inv(Load(ok)) && Alive(Load(ok))
  {
  }

  // ---------------------------------------------------------------- the command string stays well formed

  lemma StampKeepsFields(cmd: Text)
    requires IsCmd(cmd)
    ensures forall i :: 0 <= i < FCS_TERM ==> Stamp(cmd)[i] == cmd[i]
    ensures Initialised(Stamp(cmd)) == Initialised(cmd) && HexFields(Stamp(cmd)) == HexFields(cmd)
    ensures forall o: OneShot :: Ordered(Stamp(cmd), o) == Ordered(cmd, o)
  {
    StampKeepsBody(cmd);
    assert forall i :: 0 <= i < FCS_TERM ==> Stamp(cmd)[i] == Stamp(cmd)[..FCS_TERM][i] == cmd[..FCS_TERM][i] == cmd[i];
  }

  /** A status string touches only the two door commands. */
  lemma {:induction false} ParseTouchesDoorsOnly(gs: seq<Group>, p: Parsed, s: Text, i: nat)
    requires Wide(p) && |s| >= STAT_LEN && i < CMD_LEN + 1 && i != DROPOUT && i != SHUTTER
    ensures ParseGroups(gs, p, s).cmd[i] == p.cmd[i]
    decreases |gs|
  {
    if gs != [] {
      ParseTouchesDoorsOnly(gs[1..], ParseGroup(gs[0], p, s), s, i);
    }
  }

  lemma ParsedKeepsFields(l: Link, buf: Text)
    requires WF(l) && |buf| + 1 >= STAT_LEN
    ensures var c := ParsedBy(l, buf).cmd;
            && Initialised(c) == Initialised(l.cmd) && HexFields(c) == HexFields(l.cmd)
            && forall o: OneShot :: Ordered(c, o) == Ordered(l.cmd, o)
  {
    var p := Parsed(l.stat, l.chars, false, l.cmd, false, l.handset);
    var c := ParsedBy(l, buf).cmd;
    forall i: nat | i < CMD_LEN + 1 && i != DROPOUT && i != SHUTTER ensures c[i] == l.cmd[i] {
      ParseTouchesDoorsOnly(GROUPS, p, buf + [0], i);
    }
    assert c[0] == l.cmd[0] && c[INSTR] == l.cmd[INSTR] && c[FOCUS] == l.cmd[FOCUS];
    assert c[APER_STAT] == l.cmd[APER_STAT] && c[FILT_STAT] == l.cmd[FILT_STAT] && c[MIRROR_EHT] == l.cmd[MIRROR_EHT];
  }
}
