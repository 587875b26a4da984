/** What passes over the line to the PLC: which responses are refused, when the line is said to be up, and what is put
    off, held back and written. */
module PlcLine {
  import opened PlcCommand
  import opened PlcStatus
  import opened PlcProtocol

  // ---------------------------------------------------------------- garbled responses

  lemma {:induction false} FcsOfChange(s: Text, i: nat, c: bv8)
    requires i < |s|
    ensures Fcs(s[i := c]) == Fcs(s) ^ s[i] ^ c
    decreases |s|
  {
    var n := |s| - 1;
    if i == n {
      assert s[i := c][..n] == s[..n];
      XorCancels(Fcs(s[..n]), s[n], c);
    } else {
      assert s[i := c][..n] == s[..n][i := c];
      FcsOfChange(s[..n], i, c);
      XorMoves(Fcs(s[..n]), s[i], c, s[n]);
    }
  }

  lemma XorCancels(a: bv8, b: bv8, c: bv8)
    ensures a ^ c == (a ^ b) ^ b ^ c
  {
  }

  lemma XorMoves(a: bv8, b: bv8, c: bv8, d: bv8)
    ensures (a ^ b ^ c) ^ d == (a ^ d) ^ b ^ c
  {
  }

  lemma XorDiffers(a: bv8, b: bv8, c: bv8)
    ensures b != c ==> a ^ b ^ c != a
  {
  }

  /** One wrong character before the check sequence, and a status response is refused. */
  lemma WrongCharacterIsRefused(buf: Text, i: nat, c: bv8)
    requires ValidStatResp(buf) && i < |buf| - 3 && c != buf[i]
    ensures !ValidStatResp(buf[i := c])
  {
    hide Fcs, EndCodeOk, CheckFcs;
    var n, t := |buf| - 3, buf[i := c];
    assert t[..n] == buf[..n][i := c];
    FcsOfChange(buf[..n], i, c);
    XorDiffers(Fcs(buf[..n]), buf[i], c);
    CheckMeans(buf);
    if CheckFcs(t, |t| + 1) {
      CheckMeans(t);
    }
  }

  lemma CheckMeans(s: Text)
    requires |s| >= 3 && CheckFcs(s, |s| + 1)
    ensures Fcs(s[..|s| - 3]) == (HexVal(s[|s| - 3]) << 4) + HexVal(s[|s| - 2])
  {
    hide Fcs, HexVal;
  }

  /** So is a response to a command with any of its ten characters wrong. */
  lemma WrongReplyIsRefused(buf: Text, i: nat, c: bv8)
    requires ValidCmdResp(buf) && i < 10 && c != buf[i]
    ensures !ValidCmdResp(buf[i := c])
  {
    assert buf[i := c][..10][i] == c && buf[..10][i] == buf[i];
  }

  /** Shorter ones are refused as well. */
  lemma ShortResponsesAreRefused(buf: Text)
    ensures |buf| < 78 ==> !ValidStatResp(buf)
    ensures |buf| < 10 ==> !ValidCmdResp(buf)
  {
  }

  // ---------------------------------------------------------------- the line

  /** The event writes to the line: a poll or an order that finds no response awaited, or a good response, after which
      the command held back or the next request goes out. */
  predicate Writes(l: Link, e: Event)
    requires WF(l)
  {
    match e
    case PollEvent(_) => l.pollQueued && l.await == Nothing
    case OrderEvent(_, _) => l.await == Nothing
    case ResponseEvent(buf, _) => Complete(buf) && !Refused(l, buf)
    case _ => false
  }

  /** What answers the request that is awaited must be its answer. */
  predicate Refused(l: Link, buf: Text) {
    (l.await == CmdResp && !ValidCmdResp(buf)) || (l.await == StatResp && !ValidStatResp(buf))
  }

  predicate Accepts(e: Event) {
    match e
    case PollEvent(ok) => ok
    case OrderEvent(_, ok) => ok
    case ResponseEvent(_, ok) => ok
    case _ => false
  }

  /** The line is said to be up exactly if the last thing tried on it went well: a write was accepted; not if it failed,
      if no answer came in time, or if the answer was refused. */
  lemma LineIsUpExactly(l: Link, e: Event)
    requires WF(l)
    ensures Step(l, e).commOk <==>
            if Writes(l, e) then Accepts(e)
            else if e.TimeoutEvent? && l.timerArmed then false
            else if e.ResponseEvent? && Complete(e.buf) then false
            else l.commOk
  {
    hide ValidStatResp, ValidCmdResp, Complete, Apply, Stamp, Respond;
    if e.ResponseEvent? {
      RespondedLine(l, e.buf, e.ok);
    }
  }

  lemma RespondedLine(l: Link, buf: Text, ok: bool)
    requires WF(l)
    ensures Respond(l, buf, ok).commOk <==>
            if !Complete(buf) then l.commOk else !Refused(l, buf) && ok
  {
    hide Complete, ValidStatResp, ValidCmdResp, Take, Continue;
    RefusedIsBad(l, buf);
    var m, v := Take(l, buf).0, Take(l, buf).1;
    ContinuedLine(m.(await := Nothing, timerArmed := false, commOk := true, newStat := m.newStat || v == Change), ok);
  }

  lemma RefusedIsBad(l: Link, buf: Text)
    requires WF(l)
    ensures Take(l, buf).1 == Bad <==> Refused(l, buf)
  {
    hide ValidStatResp, ValidCmdResp, ParsedBy, ClearOneShots, InitCmd, Initialised;
  }

  lemma ContinuedLine(l: Link, ok: bool)
    requires WF(l) && l.await == Nothing
    ensures Continue(l, ok).commOk == ok
  {
    hide Stamp;
  }

  /** A poll that comes while a response is awaited is put off, not lost; so is one that cannot be written. */
  lemma PollIsPutOffExactly(l: Link, ok: bool)
    requires WF(l) && l.pollQueued
    ensures var m := Step(l, PollEvent(ok));
            && (m.pollQueued <==> l.await != Nothing || !ok)
            && (l.await == Nothing && ok ==> m.await == StatResp && m.timerArmed)
  {
  }

  predicate IsHex(c: bv8) {
    0x30 <= c <= 0x39 || 0x41 <= c <= 0x46 || 0x61 <= c <= 0x66
  }

  /** An end code is refused exactly if both its characters are digits and the second is not 0. */
  lemma EndCodeIsRefusedExactly(buf: Text)
    requires |buf| >= 7
    ensures EndCodeOk(buf) <==> !(IsHex(buf[5]) && IsHex(buf[6]) && buf[6] != 0x30)
  {
    HexDigit(buf[5]);
    HexDigit(buf[6]);
    hide HexVal, IsHex;
  }

  lemma HexDigit(c: bv8)
    ensures HexVal(c) == PlcCommand.INVALID <==> !IsHex(c)
    ensures HexVal(c) == 0 <==> c == 0x30
  {
  }

  /** Anything that does not begin with an at sign and end with an asterisk is dropped. */
  lemma FragmentsAreDropped(l: Link, buf: Text, ok: bool)
    requires WF(l) && (buf == [] || buf[0] != 0x40 || buf[|buf| - 1] != 0x2A)
    ensures Step(l, ResponseEvent(buf, ok)) == l
  {
  }

  /** The answer to a command begins with ten characters: no error, and a right check sequence. */
  lemma ReplyIsAcceptedExactly(buf: Text)
    ensures ValidCmdResp(buf) <==>
            |buf| >= 10 && buf[..10] == [0x40, 0x30, 0x30, 0x57, 0x44, 0x30, 0x30, 0x35, 0x33, 0x2A]
    ensures ValidCmdResp(buf) ==> CheckFcs(buf[..10], 11) && EndCodeOk(buf[..10])
  {
    if ValidCmdResp(buf) {
      ReplyPassesCheck();
    }
    hide CheckFcs, EndCodeOk;
  }

  lemma ReplyPassesCheck()
    ensures CheckFcs(CMD_RESP, 11) && EndCodeOk(CMD_RESP)
  {
    hide Fcs;
    var s := [0x40] + [0x30] + [0x30] + [0x57];
    var t := s + [0x44] + [0x30] + [0x30];
    FcsOfHead();
    FcsAppend(s, 0x44);
    FcsAppend(s + [0x44], 0x30);
    FcsAppend(s + [0x44] + [0x30], 0x30);
    assert CMD_RESP[..7] == t;
  }

  lemma FcsOfHead()
    ensures Fcs([0x40] + [0x30] + [0x30] + [0x57]) == 0x17
  {
    hide Fcs;
    FcsAppend([], 0x40);
    assert [] + [0x40 as bv8] == [0x40];
    FcsAppend([0x40], 0x30);
    FcsAppend([0x40] + [0x30], 0x30);
    FcsAppend([0x40] + [0x30] + [0x30], 0x57);
  }

  lemma FcsAppend(s: Text, c: bv8)
    ensures Fcs(s + [c]) == Fcs(s) ^ c && Fcs([]) == 0
  {
    assert (s + [c])[..|s|] == s;
  }

  /** An order is written at once, or held back: exactly if a response is awaited or the line does not take it. */
  lemma OrderIsHeldBackExactly(l: Link, r: Request, ok: bool)
    requires WF(l)
    ensures var m := Step(l, OrderEvent(r, ok));
            && (m.pending <==> l.pending || l.await != Nothing || !ok)
            && (l.await == Nothing && ok ==> m.written == m.cmd && m.await == CmdResp && m.timerArmed)
            && (l.await != Nothing || !ok ==> m.written == l.written && m.await == l.await)
            && (l.await != Nothing ==> SendCmd(l, ok) == l.(pending := true))
  {
    hide Apply, Stamp;
  }

  /** A command that is written ends with its check sequence, an asterisk, a carriage return and a NUL. */
  lemma WrittenCommandEnds(l: Link, r: Request, ok: bool)
    requires WF(l) && l.await == Nothing && ok
    ensures var c := Step(l, OrderEvent(r, ok)).written;
            && IsCmd(c) && (HexVal(c[53]) << 4) + HexVal(c[54]) == Fcs(c[..53])
            && c[55] == 0x2A && c[56] == 0x0D && c[57] == 0
  {
    hide Apply, HexVal, HexChar, Fcs;
    var cmd := Apply(l.cmd, r);
    StampKeepsBody(cmd);
    var f := Fcs(cmd[..FCS_TERM]);
    NibblesOfByte(f);
    HexRoundTrip(f >> 4);
    HexRoundTrip(f & 0x0F);
  }
}
