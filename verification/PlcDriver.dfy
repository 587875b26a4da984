/** The PLC driver as the C code has it: flags, and character arrays edited in place.
    Each method is proved to do what the function of PlcProtocol, PlcCommand or PlcStatus named in its contract says. */
module PlcDriver {
  import opened PlcCommand
  import opened PlcStatus
  import opened PlcProtocol
  import opened PlcSafety

  class Driver {
    var await: Await
    var cmdPending: bool
    var timerArmed: bool
    var pollQueued: bool
    var commOk: bool
    var newStat: bool
    const cmd: array<bv8>
    const chars: array<bv8>
    var stat: PlcStatus.Status
    /** Calls of the handset handler; the last command the line accepted; writes out of turn. */
    ghost var handset: seq<(bv8, bv8)>
    ghost var written: Text
    ghost var collisions: nat

    ghost predicate Sized() {
      cmd.Length == CMD_LEN + 1 && chars.Length == STAT_LEN + 1 && cmd != chars
    }

    ghost function State(): Link
      requires Sized()
      reads this, cmd, chars
    {
      Link(await, cmdPending, timerArmed, pollQueued, commOk, newStat, cmd[..],
           stat, chars[..], handset, written, collisions)
    }

    ghost predicate Valid()
      reads this, cmd, chars
    {
      Sized() && Inv(State())
    }

    constructor (ok: bool)
      ensures Valid() && State() == Load(ok) && fresh(cmd) && fresh(chars)
    {
      await := Nothing;
      cmdPending, timerArmed, pollQueued, commOk, newStat := false, false, false, false, false;
      cmd := new bv8[CMD_LEN + 1](_ => 0);
      chars := new bv8[STAT_LEN + 1](_ => 0);
      stat := NO_STATUS;
      handset, written, collisions := [], NO_CMD, 0;
      new;
      assert cmd[..] == NO_CMD && chars[..] == seq(STAT_LEN + 1, _ => 0);
      LoadKeeps(ok);
      SendStatusRequest(ok);
    }

    // -------------------------------------------------------------- characters

    /** Copies characters into the command string. */
    method PutChars(at: nat, bytes: Text)
      requires Sized() && at + |bytes| <= cmd.Length
      modifies cmd
      ensures cmd[..] == Put(old(cmd[..]), at, bytes)
    {
      for i := 0 to |bytes|
        invariant cmd[..] == Put(old(cmd[..]), at, bytes[..i])
      {
        cmd[at + i] := bytes[i];
        assert bytes[..i + 1] == bytes[..i] + [bytes[i]];
      }
      assert bytes[..|bytes|] == bytes;
    }

    method CalcFcs(length: nat) returns (f: bv8)
      requires length <= cmd.Length
      ensures f == Fcs(cmd[..length])
    {
      f := 0;
      for i := 0 to length
        invariant f == Fcs(cmd[..i])
      {
        assert cmd[..i + 1][..i] == cmd[..i];
        f := f ^ cmd[i];
      }
    }

    // -------------------------------------------------------------- sending

    /** The line accepts a write. */
    method Accepted()
      modifies this`collisions
      ensures collisions == if await == Nothing then old(collisions) else old(collisions) + 1
    {
      collisions := if await == Nothing then collisions else collisions + 1;
    }

    method StampCommand()
      requires Sized()
      modifies cmd
      ensures cmd[..] == Stamp(old(cmd[..]))
    {
      var f := CalcFcs(FCS_TERM);
      assert cmd[..][..FCS_TERM] == cmd[..FCS_TERM];
      PutChars(FCS_TERM, [HexChar(f >> 4), HexChar(f & 0x0F), STAR, CR, 0]);
    }

    method SendStatusRequest(ok: bool)
      requires Sized()
      modifies this
      ensures State() == SendStatReq(old(State()), ok)
    {
      if await != Nothing {
        pollQueued := true;
        return;
      }
      if !ok {
        commOk := false;
        pollQueued := true;
        return;
      }
      Accepted();
      commOk := true;
      await := StatResp;
      timerArmed := true;
    }

    method SendCommand(ok: bool)
      requires Sized()
      modifies this, cmd
      ensures State() == SendCmd(old(State()), ok)
    {
      if await != Nothing {
        cmdPending := true;
        return;
      }
      hide Stamp;
      StampCommand();
      if !ok {
        commOk := false;
        cmdPending := true;
        return;
      }
      Accepted();
      written := cmd[..];
      commOk := true;
      await := CmdResp;
      timerArmed := true;
    }

    method PollFires(ok: bool)
      requires Valid() && pollQueued
      modifies this
      ensures Valid() && State() == Step(old(State()), PollEvent(ok))
    {
      StepKeeps(State(), PollEvent(ok));
      pollQueued := false;
      SendStatusRequest(ok);
    }

    method ResponseTimeout()
      requires Valid() && timerArmed
      modifies this
      ensures Valid() && State() == Step(old(State()), TimeoutEvent)
    {
      timerArmed := false;
      await := Nothing;
      commOk := false;
      pollQueued := true;
    }

    // -------------------------------------------------------------- requests

    method HandleRequest(r: Request, ok: bool)
      requires Valid()
      modifies this, cmd
      ensures Valid() && State() == Order(old(State()), r, ok)
    {
      OrderKeeps(State(), r, ok);
      hide Inv, Alive;
      EditCommand(r);
      if await == Nothing {
        SendCommand(ok);
      } else {
        cmdPending := true;
      }
    }

    /** The edits of the command string, character by character. */
    method EditCommand(r: Request)
      requires Sized()
      modifies cmd
      ensures cmd[..] == Apply(old(cmd[..]), r)
    {
      hide HexVal, HexChar, DoorRequest, WheelRequest, FocusGotoRequest, CloseShutterRequest, AzimuthDigits;
      match r
      case SetDomeAzm(v) =>
        PutChars(DOME_POS, AzimuthDigits(v));
        cmd[DOME_STAT] := HexChar(0x1);
      case DomeShutter(v) => EditDoor(SHUTTER, v);
      case Dropout(v) => EditDoor(DROPOUT, v);
      case FocusGoto(v) => EditFocus(v);
      case MoveAper(v) => EditWheel(APER_STAT, APER_NUM + 1, v, 0x8);
      case MoveFilt(v) => EditWheel(FILT_STAT, FILT_NUM + 1, v, 0);
      case ClosePmtShutter => EditCloseShutter();
      case _ => EditField(r);
    }

    predicate OneField(r: Request) {
      !r.SetDomeAzm? && !r.DomeShutter? && !r.Dropout? && !r.FocusGoto?
      && !r.MoveAper? && !r.MoveFilt? && !r.ClosePmtShutter?
    }

    /** Requests that change a single character. */
    method EditField(r: Request)
      requires Sized() && OneField(r)
      modifies cmd
      ensures cmd[..] == Apply(old(cmd[..]), r)
    {
      if r.DomeMove? || r.FocusMove? {
        EditMove(r);
      } else if r.AcqMirror? || r.SetEht? {
        EditMirrorEht(r);
      } else {
        EditInstr(r);
      }
    }

    method EditInstr(r: Request)
      requires Sized() && (r.ResetWatchdog? || r.InstrShutter? || r.ResetMerlin?)
      modifies cmd
      ensures cmd[..] == Apply(old(cmd[..]), r)
    {
      hide HexVal, SetNibble;
      var instr := Nibble(cmd[..], INSTR);
      match r
      case ResetWatchdog => SetField(INSTR, WATCHDOG | instr);
      case InstrShutter(v) =>
        SetField(INSTR, if v == 1 then (instr & !INSTR_OPEN) | INSTR_OPEN else instr & !INSTR_OPEN);
      case ResetMerlin => SetField(INSTR, instr | ACQ_RESET);
    }

    method EditMirrorEht(r: Request)
      requires Sized() && (r.AcqMirror? || r.SetEht?)
      modifies cmd
      ensures cmd[..] == Apply(old(cmd[..]), r)
    {
      hide HexVal, SetNibble;
      var n := Nibble(cmd[..], MIRROR_EHT);
      match r
      case AcqMirror(v) => SetField(MIRROR_EHT, (n & 0x3) | (if v == 1 then 0 else if v == 2 then 0x8 else 0x4));
      case SetEht(v) => SetField(MIRROR_EHT, (n & 0xC) | (if v == 1 then 0x1 else if v == 2 then 0x2 else 0));
    }

    method EditMove(r: Request)
      requires Sized() && (r.DomeMove? || r.FocusMove?)
      modifies cmd
      ensures cmd[..] == Apply(old(cmd[..]), r)
    {
      hide SetNibble;
      match r
      case DomeMove(v) =>
        if v > 0 {
          SetField(DOME_STAT, 0x6);
        } else if v < 0 {
          SetField(DOME_STAT, 0x4);
        } else {
          cmd[DOME_STAT] := ZERO;
        }
      case FocusMove(v) => SetField(FOCUS, if v > 0 then 0x4 else if v < 0 then 0x2 else FOC_RESET);
    }

    method SetField(at: nat, n: bv8)
      requires Sized() && at < CMD_LEN
      modifies cmd
      ensures cmd[..] == SetNibble(old(cmd[..]), at, n)
    {
      hide HexChar;
      cmd[at] := HexChar(n);
    }

    method EditDoor(at: nat, value: int)
      requires Sized() && at < CMD_LEN && at != INSTR
      modifies cmd
      ensures cmd[..] == DoorRequest(old(cmd[..]), at, value)
    {
      hide HexVal, HexChar;
      if value > 0 {
        cmd[at] := HexChar(DOOR_OPEN);
        cmd[INSTR] := HexChar(WATCHDOG | HexVal(cmd[INSTR]));
      } else if value < 0 {
        cmd[at] := HexChar(DOOR_CLOSE);
      } else {
        cmd[at] := ZERO;
      }
    }

    method EditWheel(at: nat, num: nat, value: int, keep: bv8)
      requires Sized() && at < CMD_LEN && num < CMD_LEN
      modifies cmd
      ensures cmd[..] == WheelRequest(old(cmd[..]), at, num, value, keep)
    {
      hide HexVal, HexChar, Keeping;
      var n := HexVal(cmd[at]);
      if 0 <= value < 10 {
        cmd[at] := HexChar(Keeping(n, keep, WHEEL_GO));
        cmd[num] := DIGITS[value];
      } else if value > 0 {
        cmd[at] := HexChar(Keeping(n, keep, 0x1));
      } else {
        cmd[at] := HexChar(Keeping(n, keep, 0x4));
      }
    }

    method EditFocus(value: int)
      requires Sized()
      modifies cmd
      ensures cmd[..] == FocusGotoRequest(old(cmd[..]), value)
    {
      hide HexVal, HexChar, Put, FocusDigits;
      if value == 0 {
        cmd[FOCUS] := HexChar(FOC_RESET);
      } else {
        cmd[FOCUS_REG] := if value < 0 then 0x38 else ZERO;
        PutChars(FOCUS_POS, FocusDigits(value));
        cmd[FOCUS] := HexChar(FOC_GO);
      }
    }

    method EditCloseShutter()
      requires Sized()
      modifies cmd
      ensures cmd[..] == CloseShutterRequest(old(cmd[..]))
      ensures HexFields(old(cmd[..])) ==> ClosesShutter(old(cmd[..]), cmd[..])
    {
      if HexFields(cmd[..]) {
        CloseShutterMeans(cmd[..]);
      }
      hide HexVal, HexChar;
      cmd[INSTR] := HexChar(HexVal(cmd[INSTR]) & !INSTR_OPEN);
      cmd[APER_STAT] := HexChar(WHEEL_GO | (HexVal(cmd[APER_STAT]) & 0x8));
      cmd[APER_NUM + 1] := 0x38;
      cmd[FILT_STAT] := HexChar(WHEEL_GO);
      cmd[FILT_NUM + 1] := 0x39;
      cmd[MIRROR_EHT] := HexChar(HexVal(cmd[MIRROR_EHT]) & 0x3);
    }

    // -------------------------------------------------------------- responses

    method ProcessCmdResp(buf: Text) returns (verdict: Verdict)
      requires Sized()
      modifies cmd
      ensures (State(), verdict) == TakeCmdResp(old(State()), buf)
    {
      if !ValidCmdResp(buf) {
        return Bad;
      }
      if !cmdPending {
        hide HexVal, HexChar;
        cmd[INSTR] := HexChar(HexVal(cmd[INSTR]) & !WATCHDOG);
        cmd[INSTR] := HexChar(HexVal(cmd[INSTR]) & !ACQ_RESET);
        cmd[FOCUS] := HexChar(HexVal(cmd[FOCUS]) & !(FOC_RESET | FOC_GO));
        cmd[APER_STAT] := ZERO;
        cmd[FILT_STAT] := ZERO;
        assert cmd[..] == ClearOneShots(old(cmd[..]));
      }
      return NoChange;
    }

    method ProcessStatResp(buf: Text) returns (verdict: Verdict)
      requires Sized()
      modifies this, cmd, chars
      ensures (State(), verdict) == TakeStatResp(old(State()), buf)
    {
      if !ValidStatResp(buf) {
        return Bad;
      }
      hide Parse;
      var changed, withdrawn := ParseStatus(buf + [0]);
      if withdrawn {
        cmdPending := true;
      }
      return if changed then Change else NoChange;
    }

    ghost function Decoding(changed: bool, withdrawn: bool): Parsed
      requires Sized()
      reads this, cmd, chars
    {
      Parsed(stat, chars[..], changed, cmd[..], withdrawn, handset)
    }

    /** Decodes the groups one after another, in the driver's order. */
    method ParseStatus(s: Text) returns (changed: bool, withdrawn: bool)
      requires Sized() && |s| >= STAT_LEN
      modifies this`stat, this`handset, cmd, chars
      ensures Decoding(changed, withdrawn) == Parse(old(Decoding(false, false)), s)
    {
      hide ParseGroups, ParseFrom;
      ParseFromEnds(Decoding(false, false), s);
      changed, withdrawn := ParseDome(s, false, false);
      changed, withdrawn := ParseInstruments(s, changed, withdrawn);
      changed, withdrawn := ParseKeys(s, changed, withdrawn);
      changed, withdrawn := ParseWheels(s, changed, withdrawn);
      ParseFromEnds(Decoding(changed, withdrawn), s);
    }

    method ParseDome(s: Text, changed0: bool, withdrawn0: bool) returns (changed: bool, withdrawn: bool)
      requires Sized() && |s| >= STAT_LEN
      modifies this`stat, this`handset, cmd, chars
      ensures ParseFrom(5, Decoding(changed, withdrawn), s) == ParseFrom(0, old(Decoding(changed0, withdrawn0)), s)
    {
      hide ParseFrom;
      changed, withdrawn := DecodeNext(DomePos, s, changed0, withdrawn0, 0);
      changed, withdrawn := DecodeNext(DropoutDoor, s, changed, withdrawn, 1);
      changed, withdrawn := DecodeNext(ShutterDoor, s, changed, withdrawn, 2);
      changed, withdrawn := DecodeNext(DomeStat, s, changed, withdrawn, 3);
      changed, withdrawn := DecodeNext(AperStat, s, changed, withdrawn, 4);
    }

    method ParseInstruments(s: Text, changed0: bool, withdrawn0: bool) returns (changed: bool, withdrawn: bool)
      requires Sized() && |s| >= STAT_LEN
      modifies this`stat, this`handset, cmd, chars
      ensures ParseFrom(10, Decoding(changed, withdrawn), s) == ParseFrom(5, old(Decoding(changed0, withdrawn0)), s)
    {
      hide ParseFrom;
      changed, withdrawn := DecodeNext(FiltStat, s, changed0, withdrawn0, 5);
      changed, withdrawn := DecodeNext(AcqMir, s, changed, withdrawn, 6);
      changed, withdrawn := DecodeNext(InstrShutt, s, changed, withdrawn, 7);
      changed, withdrawn := DecodeNext(Focus, s, changed, withdrawn, 8);
      changed, withdrawn := DecodeNext(FocStat, s, changed, withdrawn, 9);
    }

    method ParseKeys(s: Text, changed0: bool, withdrawn0: bool) returns (changed: bool, withdrawn: bool)
      requires Sized() && |s| >= STAT_LEN
      modifies this`stat, this`handset, cmd, chars
      ensures ParseFrom(13, Decoding(changed, withdrawn), s) == ParseFrom(10, old(Decoding(changed0, withdrawn0)), s)
    {
      hide ParseFrom;
      changed, withdrawn := DecodeNext(CritErr, s, changed0, withdrawn0, 10);
      changed, withdrawn := DecodeNext(Eht, s, changed, withdrawn, 11);
      changed, withdrawn := DecodeNext(HandsetKeys, s, changed, withdrawn, 12);
    }

    method ParseWheels(s: Text, changed0: bool, withdrawn0: bool) returns (changed: bool, withdrawn: bool)
      requires Sized() && |s| >= STAT_LEN
      modifies this`stat, this`handset, cmd, chars
      ensures ParseFrom(15, Decoding(changed, withdrawn), s) == ParseFrom(13, old(Decoding(changed0, withdrawn0)), s)
    {
      hide ParseFrom;
      changed, withdrawn := DecodeNext(AperNum, s, changed0, withdrawn0, 13);
      changed, withdrawn := DecodeNext(FiltNum, s, changed, withdrawn, 14);
    }

    /** One group of the list, and what is then left to do. */
    method DecodeNext(g: Group, s: Text, changed0: bool, withdrawn0: bool, ghost k: nat)
      returns (changed: bool, withdrawn: bool)
      requires Sized() && |s| >= STAT_LEN && k == Rank(g)
      modifies this`stat, this`handset, cmd, chars
      ensures ParseFrom(k + 1, Decoding(changed, withdrawn), s) == ParseFrom(k, old(Decoding(changed0, withdrawn0)), s)
    {
      hide ParseGroup, ParseFrom;
      EveryGroupIsListed(g);
      ParseFromSteps(k, Decoding(changed0, withdrawn0), s);
      changed, withdrawn := DecodeIfChanged(g, s, changed0, withdrawn0);
    }

    method DecodeIfChanged(g: Group, s: Text, changed0: bool, withdrawn0: bool) returns (changed: bool, withdrawn: bool)
      requires Sized() && |s| >= STAT_LEN
      modifies this`stat, this`handset, cmd, chars
      ensures Decoding(changed, withdrawn) == ParseGroup(g, old(Decoding(changed0, withdrawn0)), s)
    {
      changed, withdrawn := changed0, withdrawn0;
      if Chars(g, chars[..]) != Chars(g, s) {
        changed := true;
        var v := DecodeGroup(g, Chars(g, s));
        hide DecodeGroup, Chars, Put, First;
        if v.Code? {
          if g == DropoutDoor {
            withdrawn := WithdrawIfReached(DROPOUT, v.c, withdrawn);
          } else if g == ShutterDoor {
            withdrawn := WithdrawIfReached(SHUTTER, v.c, withdrawn);
          } else if g == HandsetKeys {
            handset := handset + [(HandsetOf(stat), v.c)];
          }
        }
        stat := stat[g := v];
        KeepChars(g, Chars(g, s));
      }
    }

    method WithdrawIfReached(at: nat, reported: bv8, withdrawn0: bool) returns (withdrawn: bool)
      requires Sized() && at < CMD_LEN
      modifies cmd
      ensures withdrawn == (withdrawn0 || DoorReached(reported, HexVal(old(cmd[at]))))
      ensures cmd[..] == if DoorReached(reported, HexVal(old(cmd[at]))) then old(cmd[..])[at := ZERO] else old(cmd[..])
    {
      hide DoorReached, HexVal;
      withdrawn := withdrawn0;
      if DoorReached(reported, HexVal(cmd[at])) {
        cmd[at] := ZERO;
        withdrawn := true;
      }
    }

    method KeepChars(g: Group, cs: Text)
      requires Sized() && |cs| == Size(g)
      modifies chars
      ensures First(g) + Size(g) <= STAT_LEN
      ensures chars[..] == Put(old(chars[..]), First(g), cs)
    {
      GroupsAreApart(g, g);
      hide First, Size;
      for i := 0 to |cs|
        invariant chars[..] == Put(old(chars[..]), First(g), cs[..i])
      {
        chars[First(g) + i] := cs[i];
        assert cs[..i + 1] == cs[..i] + [cs[i]];
      }
      assert cs[..|cs|] == cs;
    }

    method ProcessResponse(buf: Text, ok: bool)
      requires Valid()
      modifies this, cmd, chars
      ensures Valid() && State() == Respond(old(State()), buf, ok)
    {
      RespondKeeps(State(), buf, ok);
      hide Inv, Alive, Take, Continue;
      if !Complete(buf) {
        return;
      }
      var verdict := TakeResponse(buf);
      AfterResponse(verdict, ok);
    }

    method AfterResponse(verdict: Verdict, ok: bool)
      requires Sized()
      modifies this, cmd
      ensures State() == var n := old(State()).(await := Nothing, timerArmed := false);
                         if verdict == Bad then n.(commOk := false, pollQueued := true)
                         else Continue(n.(commOk := true, newStat := n.newStat || verdict == Change), ok)
    {
      await := Nothing;
      timerArmed := false;
      if verdict == Bad {
        commOk := false;
        pollQueued := true;
        return;
      }
      hide Continue;
      commOk := true;
      newStat := newStat || verdict == Change;
      SendNext(ok);
    }

    method SendNext(ok: bool)
      requires Sized()
      modifies this, cmd
      ensures State() == Continue(old(State()), ok)
    {
      if cmdPending {
        SendCommand(ok);
        cmdPending := false;
      } else {
        SendStatusRequest(ok);
      }
    }

    method TakeResponse(buf: Text) returns (verdict: Verdict)
      requires Sized()
      modifies this, cmd, chars
      ensures (State(), verdict) == Take(old(State()), buf)
    {
      hide TakeStatResp, TakeCmdResp, InitCmd;
      match await
      case CmdResp =>
        verdict := ProcessCmdResp(buf);
      case StatResp =>
        verdict := ProcessStatResp(buf);
        if cmd[0] == 0 {
          InitCommand();
        }
      case Nothing =>
        verdict := NoChange;
    }

    method InitCommand()
      requires Sized()
      modifies cmd
      ensures cmd[..] == InitCmd(chars[..])
    {
      hide Stamp, InitBody;
      PutChars(0, InitBody(chars[..]) + [0, 0, 0, 0, 0]);
      assert cmd[..] == InitBody(chars[..]) + [0, 0, 0, 0, 0];
      StampCommand();
    }
  }
}
