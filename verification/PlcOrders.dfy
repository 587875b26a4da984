/** What every request orders from the PLC, read off the command string by the positions and characters that the
    PLC goes by; and when a door order is withdrawn. */
module PlcOrders {
  import opened CArithmetic
  import opened PlcCommand
  import opened PlcStatus
  import opened PlcProtocol
  import opened PlcSafety

  // ---------------------------------------------------------------- digits

  predicate IsDigit(c: bv8) {
    0x30 <= c <= 0x39
  }

  function DigitOf(c: bv8): int {
    c as int - 48
  }

  /** The number that decimal digits say. */
  function ReadDigits(s: Text): int {
    if s == [] then 0 else ReadDigits(s[..|s| - 1]) * 10 + DigitOf(s[|s| - 1])
  }

  lemma DigitIsDigit(n: nat)
    requires n < 10
    ensures IsDigit(DIGITS[n]) && DigitOf(DIGITS[n]) == n
  {
    assert n == 0 || n == 1 || n == 2 || n == 3 || n == 4 || n == 5 || n == 6 || n == 7 || n == 8 || n == 9;
  }

  lemma ReadAppend(s: Text, c: bv8)
    ensures ReadDigits(s + [c]) == ReadDigits(s) * 10 + DigitOf(c)
  {
    assert (s + [c])[..|s|] == s;
  }

  function Pow10(w: nat): nat {
    if w == 0 then 1 else 10 * Pow10(w - 1)
  }

  /** What is printed in decimal reads back, in no more digits than it needs. */
  lemma {:induction false} DecimalReadsBack(n: nat, w: nat)
    ensures ReadDigits(Decimal(n, w)) == n && (forall i :: 0 <= i < |Decimal(n, w)| ==> IsDigit(Decimal(n, w)[i]))
    ensures n < Pow10(w) ==> |Decimal(n, w)| == w
    decreases n, w
  {
    hide IsDigit, DigitOf;
    if n != 0 || w != 0 {
      var w' := if w == 0 then 0 else w - 1;
      DecimalReadsBack(n / 10, w');
      DigitIsDigit(n % 10);
      ReadAppend(Decimal(n / 10, w'), DIGITS[n % 10]);
      hide ReadDigits;
    }
  }

  lemma {:induction false} ReadIsBelow(s: Text)
    requires forall i :: 0 <= i < |s| ==> IsDigit(s[i])
    ensures 0 <= ReadDigits(s) < Pow10(|s|)
    decreases |s|
  {
    if s != [] {
      ReadIsBelow(s[..|s| - 1]);
      DigitRange(s[|s| - 1]);
      hide IsDigit, DigitOf;
    }
  }

  lemma DigitRange(c: bv8)
    requires IsDigit(c)
    ensures 0 <= DigitOf(c) <= 9
  {
  }

  lemma Powers()
    ensures Pow10(3) == 1000 && Pow10(4) == 10000
  {
    assert Pow10(2) == 100;
  }

  /** The first three or four digits of a number. */
  lemma FirstDigits(n: nat, w: nat)
    requires w == 3 || w == 4
    ensures 0 <= ReadDigits(Decimal(n, w)[..w]) < (if w == 3 then 1000 else 10000)
    ensures n < (if w == 3 then 1000 else 10000) ==> ReadDigits(Decimal(n, w)[..w]) == n
  {
    hide ReadDigits, Decimal, Pow10, IsDigit;
    Powers();
    DecimalReadsBack(n, w);
    ReadIsBelow(Decimal(n, w)[..w]);
    if n < Pow10(w) {
      assert Decimal(n, w)[..w] == Decimal(n, w);
    }
  }

  lemma AzimuthReadsBack(value: int)
    ensures ReadDigits(AzimuthDigits(value)) == 3599 - CMod(value, 3600)
  {
    hide ReadDigits, Decimal;
    FirstDigits(3599 - CMod(value, 3600), 4);
  }

  /** The focus digits say the ordered position exactly if it has at most three digits. */
  lemma FocusReadsBackExactly(value: int)
    ensures ReadDigits(FocusDigits(value)) == Magnitude(value) <==> Magnitude(value) <= 999
  {
    hide ReadDigits, Decimal;
    FirstDigits(Magnitude(value) % 65536, 3);
  }

  // ---------------------------------------------------------------- what a request orders

  /** Characters outside the given places are as before. */
  predicate Same(cmd: Text, u: Text, at: set<int>)
    requires IsCmd(cmd) && IsCmd(u)
  {
    forall i :: 0 <= i < |cmd| && i !in at ==> u[i] == cmd[i]
  }

  /** Doors: '1' opens, '2' closes, '0' stops. To open one, the watchdog is reset as well. */
  predicate DoorMeant(cmd: Text, u: Text, at: nat, value: int)
    requires IsCmd(cmd) && IsCmd(u) && at < |cmd|
  {
    && (value > 0 ==> Same(cmd, u, {at, 17}) && u[at] == 0x31 && HexVal(u[17]) == HexVal(cmd[17]) | 0x8)
    && (value < 0 ==> Same(cmd, u, {at}) && u[at] == 0x32)
    && (value == 0 ==> Same(cmd, u, {at}) && u[at] == 0x30)
  }

  /** Wheels: bit 2 of the order goes to a slot, bit 1 initialises, bit 4 stops; the slot is the units digit. */
  predicate WheelMeant(cmd: Text, u: Text, at: nat, num: nat, keep: bv8, value: int)
    requires IsCmd(cmd) && IsCmd(u) && at < |cmd| && num < |cmd|
  {
    && (0 <= value <= 9 ==>
          Same(cmd, u, {at, num}) && IsDigit(u[num]) && DigitOf(u[num]) == value
          && HexVal(u[at]) == 0x2 | (HexVal(cmd[at]) & keep))
    && (value >= 10 ==> Same(cmd, u, {at}) && HexVal(u[at]) == 0x1 | (HexVal(cmd[at]) & keep))
    && (value < 0 ==> Same(cmd, u, {at}) && HexVal(u[at]) == 0x4 | (HexVal(cmd[at]) & keep))
  }

  /** Focus: '8' is its region for positions below 0, '0' the other. */
  predicate FocusMeant(cmd: Text, u: Text, value: int)
    requires IsCmd(cmd) && IsCmd(u)
  {
    if value == 0 then Same(cmd, u, {21}) && u[21] == 0x38
    else
      && Same(cmd, u, {21, 29, 30, 31, 32}) && u[21] == 0x31 && u[29] == (if value < 0 then 0x38 else 0x30)
      && (ReadDigits(u[30..33]) == Magnitude(value) <==> -999 <= value <= 999)
  }

  /** The meaning of each request, and that it leaves everything else alone. */
  predicate Meant(cmd: Text, r: Request, u: Text)
    requires IsCmd(cmd) && IsCmd(u)
  {
    match r
    case ResetWatchdog => Same(cmd, u, {17}) && HexVal(u[17]) == HexVal(cmd[17]) | 0x8
    case ResetMerlin => Same(cmd, u, {17}) && HexVal(u[17]) == HexVal(cmd[17]) | 0x2
    case InstrShutter(v) =>
      Same(cmd, u, {17}) && HexVal(u[17]) & 0xE == HexVal(cmd[17]) & 0xE && (HexVal(u[17]) & 0x1 != 0 <==> v == 1)
    case SetDomeAzm(v) =>
      && Same(cmd, u, {9, 10, 11, 12, 20}) && u[20] == 0x31
      && ReadDigits(u[9..13]) == (if v >= 0 then 3599 - v % 3600 else 3599 + -v % 3600)
    case DomeMove(v) => Same(cmd, u, {20}) && u[20] == if v > 0 then 0x36 else if v < 0 then 0x34 else 0x30
    case DomeShutter(v) => DoorMeant(cmd, u, 19, v)
    case Dropout(v) => DoorMeant(cmd, u, 18, v)
    case FocusGoto(v) => FocusMeant(cmd, u, v)
    case FocusMove(v) => Same(cmd, u, {21}) && u[21] == if v > 0 then 0x34 else if v < 0 then 0x32 else 0x38
    case AcqMirror(v) =>
      && Same(cmd, u, {24}) && HexVal(u[24]) & 0x3 == HexVal(cmd[24]) & 0x3
      && HexVal(u[24]) & 0xC == if v == 1 then 0 else if v == 2 then 0x8 else 0x4
    case SetEht(v) =>
      && Same(cmd, u, {24}) && HexVal(u[24]) & 0xC == HexVal(cmd[24]) & 0xC
      && HexVal(u[24]) & 0x3 == if v == 1 then 0x1 else if v == 2 then 0x2 else 0
    case MoveAper(v) => WheelMeant(cmd, u, 22, 28, 0x8, v)
    case MoveFilt(v) => WheelMeant(cmd, u, 23, 26, 0, v)
    case ClosePmtShutter =>
      && Same(cmd, u, {17, 22, 23, 24, 26, 28})
      && HexVal(u[17]) == HexVal(cmd[17]) & 0xE && HexVal(u[24]) == HexVal(cmd[24]) & 0x3
      && HexVal(u[22]) == 0x2 | (HexVal(cmd[22]) & 0x8) && u[28] == 0x38 && HexVal(u[23]) == 0x2 && u[26] == 0x39
  }

  /** The characters of the digits. */
  lemma HexDigits(n: bv8)
    ensures HexChar(0x1) == 0x31 && HexChar(0x2) == 0x32 && HexChar(0x4) == 0x34
    ensures HexChar(0x6) == 0x36 && HexChar(0x8) == 0x38
    ensures n <= 15 ==> HexVal(HexChar(n)) == n
  {
  }

  lemma ShutterBits(n: bv8)
    requires n <= 15
    ensures n | 0x8 <= 15 && n | 0x2 <= 15 && 0x8 | n == n | 0x8
    ensures var c := n & !INSTR_OPEN; c <= 15 && c == n & 0xE && c & 0xE == n & 0xE && c & 0x1 == 0
    ensures var o := (n & !INSTR_OPEN) | INSTR_OPEN; o <= 15 && o & 0xE == n & 0xE && o & 0x1 != 0
  {
  }

  lemma MirrorBits(n: bv8, m: bv8)
    requires m in {0, 0x4, 0x8}
    ensures (n & 0x3) | m <= 15 && ((n & 0x3) | m) & 0x3 == n & 0x3 && ((n & 0x3) | m) & 0xC == m
  {
  }

  lemma TensionBits(n: bv8, m: bv8)
    requires m in {0, 0x1, 0x2}
    ensures (n & 0xC) | m <= 15 && ((n & 0xC) | m) & 0xC == n & 0xC && ((n & 0xC) | m) & 0x3 == m
  {
  }

  lemma WheelBits(n: bv8, keep: bv8, order: bv8)
    requires keep in {0, 0x8} && order in {0x1, 0x2, 0x4}
    ensures Keeping(n, keep, order) <= 15 && Keeping(n, keep, order) == order | (n & keep)
  {
  }

  lemma InstrMeant(cmd: Text, r: Request)
    requires IsCmd(cmd) && HexFields(cmd) && (r.ResetWatchdog? || r.ResetMerlin? || r.InstrShutter?)
    ensures Meant(cmd, r, Apply(cmd, r))
  {
    hide HexVal, HexChar, DoorMeant, WheelMeant, FocusMeant;
    var n := Nibble(cmd, INSTR);
    HexAtMeans(cmd);
    ShutterBits(n);
    HexDigits(n | 0x8);
    HexDigits(n | 0x2);
    HexDigits(n & !INSTR_OPEN);
    HexDigits((n & !INSTR_OPEN) | INSTR_OPEN);
  }

  lemma HexAtMeans(cmd: Text)
    requires IsCmd(cmd) && HexFields(cmd)
    ensures Nibble(cmd, INSTR) <= 15 && Nibble(cmd, APER_STAT) <= 15 && Nibble(cmd, MIRROR_EHT) <= 15
  {
  }

  lemma DoorIsMeant(cmd: Text, at: nat, value: int)
    requires IsCmd(cmd) && HexFields(cmd) && (at == 18 || at == 19)
    ensures DoorMeant(cmd, DoorRequest(cmd, at, value), at, value)
  {
    hide HexVal, HexChar;
    HexAtMeans(cmd);
    ShutterBits(Nibble(cmd, INSTR));
    HexDigits(Nibble(cmd, INSTR) | 0x8);
  }

  lemma WheelIsMeant(cmd: Text, at: nat, num: nat, keep: bv8, value: int)
    requires IsCmd(cmd) && HexFields(cmd) && at < CMD_LEN && num < CMD_LEN && at != num && keep in {0, 0x8}
    ensures WheelMeant(cmd, WheelRequest(cmd, at, num, value, keep), at, num, keep, value)
  {
    hide HexVal, HexChar, IsDigit, DigitOf, Keeping;
    var n := Nibble(cmd, at);
    if 0 <= value < 10 {
      DigitIsDigit(value);
    }
    WheelBits(n, keep, WHEEL_GO);
    WheelBits(n, keep, 0x1);
    WheelBits(n, keep, 0x4);
    HexDigits(Keeping(n, keep, WHEEL_GO));
    HexDigits(Keeping(n, keep, 0x1));
    HexDigits(Keeping(n, keep, 0x4));
  }

  lemma FocusIsMeant(cmd: Text, value: int)
    requires IsCmd(cmd)
    ensures FocusMeant(cmd, FocusGotoRequest(cmd, value), value)
  {
    hide HexVal, HexChar, FocusDigits, ReadDigits;
    HexDigits(0);
    if value != 0 {
      FocusReadsBackExactly(value);
      var u := FocusGotoRequest(cmd, value);
      assert u[30..33] == FocusDigits(value);
    }
  }

  lemma DomeIsMeant(cmd: Text, r: Request)
    requires IsCmd(cmd) && (r.SetDomeAzm? || r.DomeMove? || r.FocusMove?)
    ensures Meant(cmd, r, Apply(cmd, r))
  {
    hide HexVal, HexChar, AzimuthDigits, ReadDigits, DoorMeant, WheelMeant, FocusMeant;
    HexDigits(0);
    if r.SetDomeAzm? {
      AzimuthReadsBack(r.value);
      assert Apply(cmd, r)[9..13] == AzimuthDigits(r.value);
    }
  }

  lemma MirrorIsMeant(cmd: Text, r: Request)
    requires IsCmd(cmd) && (r.AcqMirror? || r.SetEht?)
    ensures Meant(cmd, r, Apply(cmd, r))
  {
    hide HexVal, HexChar, DoorMeant, WheelMeant, FocusMeant;
    var n := Nibble(cmd, MIRROR_EHT);
    var m: bv8 := if r.value == 1 then 0 else if r.value == 2 then 0x8 else 0x4;
    var t: bv8 := if r.value == 1 then 0x1 else if r.value == 2 then 0x2 else 0;
    MirrorBits(n, m);
    TensionBits(n, t);
    HexDigits((n & 0x3) | m);
    HexDigits((n & 0xC) | t);
  }

  lemma CloseIsMeant(cmd: Text)
    requires IsCmd(cmd) && HexFields(cmd)
    ensures Meant(cmd, ClosePmtShutter, Apply(cmd, ClosePmtShutter))
  {
    hide HexVal, HexChar, Apply, DoorMeant, WheelMeant, FocusMeant;
    CloseShutterMeans(cmd);
    HexAtMeans(cmd);
    ShutterBits(Nibble(cmd, INSTR));
  }

  /** Every request orders what it means, and nothing else. */
  lemma RequestsAreMeant(cmd: Text, r: Request)
    requires IsCmd(cmd) && HexFields(cmd)
    ensures Meant(cmd, r, Apply(cmd, r))
  {
    hide HexFields, DoorMeant, WheelMeant, FocusMeant, DoorRequest, WheelRequest, FocusGotoRequest, HexVal, Same;
    match r
    case DomeShutter(v) => DoorIsMeant(cmd, 19, v);
    case Dropout(v) => DoorIsMeant(cmd, 18, v);
    case FocusGoto(v) => FocusIsMeant(cmd, v);
    case MoveAper(v) => WheelIsMeant(cmd, 22, 28, 0x8, v);
    case MoveFilt(v) => WheelIsMeant(cmd, 23, 26, 0, v);
    case ClosePmtShutter => CloseIsMeant(cmd);
    case ResetWatchdog => InstrMeant(cmd, r);
    case ResetMerlin => InstrMeant(cmd, r);
    case InstrShutter(_) => InstrMeant(cmd, r);
    case AcqMirror(_) => MirrorIsMeant(cmd, r);
    case SetEht(_) => MirrorIsMeant(cmd, r);
    case _ => DomeIsMeant(cmd, r);
  }

  // ---------------------------------------------------------------- when a door order is withdrawn

  /** The end that a door reports, 1 open and 2 closed, is one it was ordered to go to. */
  predicate Reaches(reported: bv8, ordered: bv8) {
    (reported & 0x1 != 0 && ordered & 0x1 != 0) || (reported & 0x2 != 0 && ordered & 0x2 != 0)
  }

  /** A door, the place of its order in a command, and the place of its report in a status. */
  predicate Door(g: Group, at: nat, report: nat) {
    (g == ShutterDoor && at == 19 && report == 13) || (g == DropoutDoor && at == 18 && report == 12)
  }

  /** What is left of a door order after a status. */
  function DoorAfter(order: bv8, last: bv8, now: bv8): bv8 {
    if last != now && Reaches(HexVal(now), HexVal(order)) then 0x30 else order
  }

  lemma DoorChars(g: Group, at: nat, report: nat, s: Text)
    requires Door(g, at, report) && |s| >= STAT_LEN
    ensures Chars(g, s) == [s[report]] && Size(g) == 1 && First(g) == report
  {
  }

  lemma DoorAfterGroup(h: Group, p: Parsed, s: Text, g: Group, at: nat, report: nat)
    requires Wide(p) && |s| >= STAT_LEN && Door(g, at, report)
    ensures var q := ParseGroup(h, p, s);
            && q.cmd[at] == (if h == g then DoorAfter(p.cmd[at], p.chars[report], s[report]) else p.cmd[at])
            && (h != g ==> q.chars[report] == p.chars[report])
  {
    hide HexVal;
    DoorChars(g, at, report, s);
    DoorChars(g, at, report, p.chars);
    GroupsAreApart(g, h);
    GroupsAreApart(h, h);
    if h == g {
      DoorGroup(p, s, g, at, report);
    } else {
      OtherGroup(h, p, s, g, at, report);
    }
  }

  lemma DoorGroup(p: Parsed, s: Text, g: Group, at: nat, report: nat)
    requires Wide(p) && |s| >= STAT_LEN && Door(g, at, report)
    ensures ParseGroup(g, p, s).cmd[at] == DoorAfter(p.cmd[at], p.chars[report], s[report])
  {
    hide HexVal, Put, DecodeGroup, DoorReached, Reaches, Chars;
    DoorChars(g, at, report, s);
    DoorChars(g, at, report, p.chars);
    DoorCode(g, at, report, Chars(g, s));
    ReachesMeans(HexVal(s[report]), HexVal(p.cmd[at]));
  }

  lemma DoorCode(g: Group, at: nat, report: nat, cs: Text)
    requires Door(g, at, report) && |cs| == Size(g)
    ensures DecodeGroup(g, cs) == Code(HexVal(cs[0]))
  {
    hide HexVal;
  }

  lemma ReachesMeans(reported: bv8, ordered: bv8)
    ensures DoorReached(reported, ordered) <==> Reaches(reported, ordered)
  {
  }

  lemma OtherGroup(h: Group, p: Parsed, s: Text, g: Group, at: nat, report: nat)
    requires Wide(p) && |s| >= STAT_LEN && Door(g, at, report) && h != g
    ensures ParseGroup(h, p, s).cmd[at] == p.cmd[at] && ParseGroup(h, p, s).chars[report] == p.chars[report]
  {
    hide HexVal, DecodeGroup, DoorReached, Put, First, Size, Chars;
    CharsAfterPut(h, g, p.chars, Chars(h, s));
    if Chars(h, p.chars) != Chars(h, s) {
      DoorChars(g, at, report, p.chars);
      DoorChars(g, at, report, Put(p.chars, First(h), Chars(h, s)));
    }
  }

  lemma {:induction false} DoorAfterGroups(gs: seq<Group>, from: nat, p: Parsed, s: Text,
                                           g: Group, at: nat, report: nat)
    requires Wide(p) && |s| >= STAT_LEN && Door(g, at, report) && Listed(gs, from)
    ensures ParseGroups(gs, p, s).cmd[at] ==
            if g in gs then DoorAfter(p.cmd[at], p.chars[report], s[report]) else p.cmd[at]
    decreases |gs|
  {
    hide Rank, ParseGroup, DoorAfter, Door;
    DoorPlaces(g, at, report);
    if gs != [] {
      DoorAfterGroup(gs[0], p, s, g, at, report);
      assert Rank(gs[0]) == from;
      forall i | 0 <= i < |gs[1..]| ensures Rank(gs[1..][i]) == from + 1 + i {
        assert gs[1..][i] == gs[i + 1];
      }
      DoorAfterGroups(gs[1..], from + 1, ParseGroup(gs[0], p, s), s, g, at, report);
      assert g in gs <==> g == gs[0] || g in gs[1..];
    }
  }

  lemma DoorPlaces(g: Group, at: nat, report: nat)
    requires Door(g, at, report)
    ensures at < CMD_LEN && report < STAT_LEN
  {
  }

  lemma DoorAfterStatus(p: Parsed, s: Text, g: Group, at: nat, report: nat)
    requires Wide(p) && |s| >= STAT_LEN && Door(g, at, report)
    ensures Parse(p, s).cmd[at] == DoorAfter(p.cmd[at], p.chars[report], s[report])
  {
    hide ParseGroups, DoorAfter;
    GroupsAreListed();
    EveryGroupIsListed(g);
    DoorAfterGroups(GROUPS, 0, p.(changed := false, withdrawn := false), s, g, at, report);
  }

  /** A valid status response arrives. */
  predicate Reports(l: Link, e: Event) {
    l.await == StatResp && e.ResponseEvent? && Complete(e.buf) && ValidStatResp(e.buf)
  }

  lemma ReportLeavesDoor(l: Link, buf: Text, ok: bool, g: Group, at: nat, report: nat)
    requires WF(l) && Initialised(l.cmd) && Door(g, at, report) && Reports(l, ResponseEvent(buf, ok))
    ensures Respond(l, buf, ok).cmd[at] == DoorAfter(l.cmd[at], l.chars[report], buf[report])
  {
    hide Complete, Stamp, Parse, DoorAfter, CheckFcs, EndCodeOk, Initialised, InitCmd;
    DoorPlaces(g, at, report);
    DoorAfterStatus(Parsed(l.stat, l.chars, false, l.cmd, false, l.handset), buf + [0], g, at, report);
    ParsedKeepsFields(l, buf);
    StampKeepsFields(ParsedBy(l, buf).cmd);
  }

  lemma OtherTakeLeavesDoor(l: Link, buf: Text, ok: bool, at: nat)
    requires WF(l) && Initialised(l.cmd) && (at == 18 || at == 19) && Complete(buf)
    requires !Reports(l, ResponseEvent(buf, ok))
    ensures Take(l, buf).0.cmd[at] == l.cmd[at]
  {
    hide Complete, Parse, CheckFcs, EndCodeOk, HexVal, HexChar, InitCmd;
  }

  lemma ContinueLeavesDoor(l: Link, ok: bool, at: nat)
    requires WF(l) && (at == 18 || at == 19)
    ensures Continue(l, ok).cmd[at] == l.cmd[at]
  {
    hide Stamp;
    StampKeepsFields(l.cmd);
  }

  lemma OtherResponseLeavesDoor(l: Link, buf: Text, ok: bool, at: nat)
    requires WF(l) && Initialised(l.cmd) && (at == 18 || at == 19) && !Reports(l, ResponseEvent(buf, ok))
    ensures Respond(l, buf, ok).cmd[at] == l.cmd[at]
  {
    hide Take, Continue, Complete, Reports, Initialised;
    if Complete(buf) {
      OtherTakeLeavesDoor(l, buf, ok, at);
      var m, v := Take(l, buf).0, Take(l, buf).1;
      ContinueLeavesDoor(m.(await := Nothing, timerArmed := false, commOk := true, newStat := m.newStat || v == Change),
                         ok, at);
    }
  }

  predicate AsksFor(g: Group, r: Request) {
    (g == ShutterDoor && r.DomeShutter?) || (g == DropoutDoor && r.Dropout?)
  }

  /** Open, close, stop. */
  function DoorOrder(value: int): bv8 {
    if value > 0 then 0x31 else if value < 0 then 0x32 else 0x30
  }

  /** What becomes of the order of a door at every event: a request for that door sets it, a status that newly reports
      the end it was ordered to go to withdraws it, and nothing else touches it. */
  lemma DoorOrderExactly(l: Link, e: Event, g: Group, at: nat, report: nat)
    requires Inv(l) && Initialised(l.cmd) && Door(g, at, report)
    ensures Step(l, e).cmd[at] ==
            if e.OrderEvent? && AsksFor(g, e.request) then DoorOrder(e.request.value)
            else if Reports(l, e) then DoorAfter(l.cmd[at], l.chars[report], e.buf[report])
            else l.cmd[at]
  {
    hide Respond, Complete, ValidStatResp, DoorAfter, Apply, Order, HexFields, Initialised, Meant;
    match e
    case OrderEvent(r, ok) =>
      RequestsAreMeant(l.cmd, r);
      OrderedCharacter(l, r, ok, at);
      DoorRequestIs(l.cmd, r, g, at, report);
    case ResponseEvent(buf, ok) =>
      if Reports(l, e) {
        ReportLeavesDoor(l, buf, ok, g, at, report);
      } else {
        OtherResponseLeavesDoor(l, buf, ok, at);
      }
    case _ =>
  }

  lemma OrderedCharacter(l: Link, r: Request, ok: bool, i: nat)
    requires WF(l) && i < FCS_TERM
    ensures Order(l, r, ok).cmd[i] == Apply(l.cmd, r)[i]
  {
    hide Apply, Stamp;
    StampKeepsFields(Apply(l.cmd, r));
  }

  lemma DoorRequestIs(cmd: Text, r: Request, g: Group, at: nat, report: nat)
    requires IsCmd(cmd) && Door(g, at, report) && Meant(cmd, r, Apply(cmd, r))
    ensures Apply(cmd, r)[at] == if AsksFor(g, r) then DoorOrder(r.value) else cmd[at]
  {
    hide Apply, HexVal, ReadDigits, IsDigit, DigitOf;
  }

  /** An order to open is withdrawn by a status that newly reports the open end, and by no other; an order to close by
      one that reports the closed end. */
  lemma DoorIsWithdrawnExactly(order: bv8, last: bv8, now: bv8)
    ensures DoorAfter(0x31, last, now) != 0x31 <==> last != now && HexVal(now) & 0x1 != 0
    ensures DoorAfter(0x32, last, now) != 0x32 <==> last != now && HexVal(now) & 0x2 != 0
  {
    assert HexVal(0x31) == 1 && HexVal(0x32) == 2;
  }

  /** The withdrawal is written at once, if the line takes it. */
  lemma WithdrawalIsWritten(l: Link, buf: Text, g: Group, at: nat, report: nat)
    requires WF(l) && Initialised(l.cmd) && Door(g, at, report) && Reports(l, ResponseEvent(buf, true))
    requires DoorAfter(l.cmd[at], l.chars[report], buf[report]) != l.cmd[at]
    ensures var m := Respond(l, buf, true);
            m.await == CmdResp && m.written == m.cmd && m.cmd[at] == 0x30
  {
    ReportLeavesDoor(l, buf, true, g, at, report);
    var p := Parsed(l.stat, l.chars, false, l.cmd, false, l.handset);
    hide Complete, Stamp, Parse, DoorAfter, CheckFcs, EndCodeOk, InitCmd;
    WithdrawnIsFlagged(p, buf + [0], g, at, report);
    ParsedKeepsFields(l, buf);
    hide Initialised, HexFields;
    DoorAfterChanges(l.cmd[at], l.chars[report], buf[report]);
  }

  lemma DoorAfterChanges(order: bv8, last: bv8, now: bv8)
    ensures DoorAfter(order, last, now) != order ==> DoorAfter(order, last, now) == 0x30
  {
  }

  lemma {:induction false} FlagStays(gs: seq<Group>, p: Parsed, s: Text)
    requires Wide(p) && |s| >= STAT_LEN && p.withdrawn
    ensures ParseGroups(gs, p, s).withdrawn
    decreases |gs|
  {
    hide DecodeGroup, DoorReached, Put;
    if gs != [] {
      FlagStays(gs[1..], ParseGroup(gs[0], p, s), s);
    }
  }

  lemma {:induction false} ChangedIsFlagged(gs: seq<Group>, p: Parsed, s: Text, g: Group, at: nat, report: nat)
    requires Wide(p) && |s| >= STAT_LEN && Door(g, at, report) && !p.withdrawn
    ensures ParseGroups(gs, p, s).cmd[at] != p.cmd[at] ==> ParseGroups(gs, p, s).withdrawn
    decreases |gs|
  {
    DoorPlaces(g, at, report);
    if gs != [] {
      var q := ParseGroup(gs[0], p, s);
      GroupFlags(gs[0], p, s, at);
      hide ParseGroup, Door;
      if q.withdrawn {
        FlagStays(gs[1..], q, s);
      } else {
        ChangedIsFlagged(gs[1..], q, s, g, at, report);
      }
    }
  }

  lemma GroupFlags(h: Group, p: Parsed, s: Text, at: nat)
    requires Wide(p) && |s| >= STAT_LEN && at < CMD_LEN && !p.withdrawn
    ensures !ParseGroup(h, p, s).withdrawn ==> ParseGroup(h, p, s).cmd[at] == p.cmd[at]
  {
    hide DecodeGroup, DoorReached, Put;
  }

  lemma WithdrawnIsFlagged(p: Parsed, s: Text, g: Group, at: nat, report: nat)
    requires Wide(p) && |s| >= STAT_LEN && Door(g, at, report)
    ensures at < CMD_LEN && (Parse(p, s).cmd[at] != p.cmd[at] ==> Parse(p, s).withdrawn)
  {
    DoorPlaces(g, at, report);
    ChangedIsFlagged(GROUPS, p.(changed := false, withdrawn := false), s, g, at, report);
  }

  // ---------------------------------------------------------------- the first command

  predicate NoNulIn(s: Text) {
    forall i :: 0 <= i < |s| ==> s[i] != 0
  }

  lemma {:induction false} CopiesWithoutNul(s: Text)
    requires NoNulIn(s)
    ensures CopyString(s) == s
    decreases |s|
  {
    if s != [] {
      CopiesWithoutNul(s[1..]);
    }
  }

  /** The first command repeats what the status reports: PMT shutter, high tension (low 1, high 2), mirror order, the
      characters of both wheels as tens digits of their slots, and the focus. It sends the dome to 0 with its limits and
      its offset, and orders nothing else. */
  lemma FirstCommandMeans(chars: Text)
    requires |chars| >= STAT_LEN
    ensures var u := InitCmd(chars);
            && u[0..9] == [0x40, 0x30, 0x30, 0x57, 0x44, 0x30, 0x31, 0x30, 0x30]
            && ReadDigits(u[9..13]) == 0 && ReadDigits(u[13..15]) == 10 && ReadDigits(u[15..17]) == 5
            && u[17] == (if HexVal(chars[18]) & 0x1 != 0 then 0x31 else 0x30)
            && u[18] == u[19] == u[21] == u[22] == u[23] == 0x30 && u[20] == 0x38
            && HexVal(u[24]) & 0x3 == (if HexVal(chars[28]) & 0x4 != 0 then 0x2
                                       else if HexVal(chars[28]) & 0x2 != 0 then 0x1 else 0)
            && HexVal(u[24]) & 0xC == (if chars[17] & 0x1 == 0 then 0x8 else 0)
            && u[25] == chars[34] && u[27] == chars[32] && u[26] == u[28] == 0x30
            && (NoNulIn(chars[19..23]) ==> u[29..33] == chars[19..23])
            && ReadDigits(u[33..37]) == 105
  {
    hide ReadDigits, HexVal, HexChar, CopyString, InitMirrorEht, Stamp;
    hide InitCmd, InitBody;
    FirstCharacters(chars);
    NumbersInFirst();
    if NoNulIn(chars[19..23]) {
      CopiesWithoutNul(chars[19..23]);
    }
    MirrorInFirst(chars);
  }

  /** The first command, stretch by stretch. */
  lemma FirstCharacters(chars: Text)
    requires |chars| >= STAT_LEN
    ensures var u := InitCmd(chars);
            && u[0..9] == [0x40, 0x30, 0x30, 0x57, 0x44, 0x30, 0x31, 0x30, 0x30]
            && u[9..13] == [0x30, 0x30, 0x30, 0x30] && u[13..15] == [0x31, 0x30] && u[15..17] == [0x30, 0x35]
            && u[17] == (if HexVal(chars[18]) & 0x1 != 0 then 0x31 else 0x30)
            && u[18] == u[19] == u[21] == u[22] == u[23] == 0x30 && u[20] == 0x38
            && u[24] == HexChar(InitMirrorEht(chars))
            && u[25] == chars[34] && u[27] == chars[32] && u[26] == u[28] == 0x30
            && u[29..33] == CopyString(chars[19..23]) && u[33..37] == [0x30, 0x31, 0x30, 0x35]
  {
    hide HexVal, HexChar, CopyString, InitMirrorEht, Stamp;
    var b, u := InitBody(chars), InitCmd(chars);
    StampKeepsBody(b + [0, 0, 0, 0, 0]);
    assert u[..FCS_TERM] == b;
    BodyCharacters(chars);
    hide InitBody, InitCmd;
    SliceOfBody(u, b, 0, 9);
    SliceOfBody(u, b, 9, 13);
    SliceOfBody(u, b, 13, 15);
    SliceOfBody(u, b, 15, 17);
    SliceOfBody(u, b, 29, 33);
    SliceOfBody(u, b, 33, 37);
    assert forall i :: 0 <= i < FCS_TERM ==> u[i] == u[..FCS_TERM][i];
  }

  lemma SliceOfBody(u: Text, b: Text, lo: nat, hi: nat)
    requires lo <= hi <= FCS_TERM <= |u| && u[..FCS_TERM] == b
    ensures u[lo..hi] == b[lo..hi]
  {
    forall i | 0 <= i < hi - lo ensures u[lo..hi][i] == b[lo..hi][i] {
      assert u[..FCS_TERM][lo + i] == u[lo + i];
    }
  }

  lemma BodyCharacters(chars: Text)
    requires |chars| >= STAT_LEN
    ensures var b := InitBody(chars);
            && b[0..9] == [0x40, 0x30, 0x30, 0x57, 0x44, 0x30, 0x31, 0x30, 0x30]
            && b[9..13] == [0x30, 0x30, 0x30, 0x30] && b[13..15] == [0x31, 0x30] && b[15..17] == [0x30, 0x35]
            && b[17] == (if HexVal(chars[18]) & 0x1 != 0 then 0x31 else 0x30)
            && b[18] == b[19] == b[21] == b[22] == b[23] == 0x30 && b[20] == 0x38
            && b[24] == HexChar(InitMirrorEht(chars))
            && b[25] == chars[34] && b[27] == chars[32] && b[26] == b[28] == 0x30
            && b[29..33] == CopyString(chars[19..23]) && b[33..37] == [0x30, 0x31, 0x30, 0x35]
  {
    hide HexVal, HexChar, CopyString, InitMirrorEht;
  }

  lemma NumbersInFirst()
    ensures ReadDigits([0x30, 0x30, 0x30, 0x30]) == 0 && ReadDigits([0x31, 0x30]) == 10
    ensures ReadDigits([0x30, 0x35]) == 5 && ReadDigits([0x30, 0x31, 0x30, 0x35]) == 105
  {
    hide ReadDigits;
    TwoDigits(0x30, 0x30);
    TwoDigits(0x31, 0x30);
    TwoDigits(0x30, 0x35);
    TwoDigits(0x30, 0x31);
    ReadAppend([0x30, 0x30], 0x30);
    ReadAppend([0x30, 0x30, 0x30], 0x30);
    ReadAppend([0x30, 0x31], 0x30);
    ReadAppend([0x30, 0x31, 0x30], 0x35);
    assert [0x30 as bv8, 0x30] + [0x30] == [0x30, 0x30, 0x30];
    assert [0x30 as bv8, 0x30, 0x30] + [0x30] == [0x30, 0x30, 0x30, 0x30];
    assert [0x30 as bv8, 0x31] + [0x30] == [0x30, 0x31, 0x30];
    assert [0x30 as bv8, 0x31, 0x30] + [0x35] == [0x30, 0x31, 0x30, 0x35];
  }

  lemma TwoDigits(a: bv8, b: bv8)
    ensures ReadDigits([a, b]) == DigitOf(a) * 10 + DigitOf(b)
  {
    hide DigitOf;
    assert [a, b][..1] == [a] && [a][..0] == [];
    assert ReadDigits([a]) == ReadDigits([]) * 10 + DigitOf(a);
  }

  lemma MirrorInFirst(chars: Text)
    requires |chars| >= STAT_LEN
    ensures var n := HexVal(HexChar(InitMirrorEht(chars)));
            && n & 0x3 == (if HexVal(chars[28]) & 0x4 != 0 then 0x2
                           else if HexVal(chars[28]) & 0x2 != 0 then 0x1 else 0)
            && n & 0xC == (if chars[17] & 0x1 == 0 then 0x8 else 0)
  {
    hide HexVal, HexChar;
    HexDigits(InitMirrorEht(chars));
  }

  // ---------------------------------------------------------------- the wheels' tens digits

  /** After an order to a slot, the two digits of the wheel's number say that slot exactly if the tens digit is 0. */
  lemma SlotReadsBackExactly(cmd: Text, value: int)
    requires IsCmd(cmd) && HexFields(cmd) && 0 <= value <= 9
    ensures ReadDigits(Apply(cmd, MoveAper(value))[27..29]) == value <==> cmd[27] == 0x30
    ensures ReadDigits(Apply(cmd, MoveFilt(value))[25..27]) == value <==> cmd[25] == 0x30
  {
    hide Apply, HexFields, ReadDigits, HexVal, IsDigit;
    RequestsAreMeant(cmd, MoveAper(value));
    RequestsAreMeant(cmd, MoveFilt(value));
    var a, f := Apply(cmd, MoveAper(value)), Apply(cmd, MoveFilt(value));
    assert a[27..29] == [a[27], a[28]] && f[25..27] == [f[25], f[26]];
    TwoDigits(a[27], a[28]);
    TwoDigits(f[25], f[26]);
    ZeroDigit(a[27]);
    ZeroDigit(f[25]);
  }

  lemma ZeroDigit(c: bv8)
    ensures DigitOf(c) == 0 <==> c == 0x30
  {
  }

  /** And no event ever changes it: it stays the slot that the first status reported. */
  lemma TensDigitsStay(l: Link, e: Event, at: nat)
    requires Inv(l) && Initialised(l.cmd) && (at == 25 || at == 27)
    ensures Step(l, e).cmd[at] == l.cmd[at] && Initialised(Step(l, e).cmd)
  {
    hide Respond, Complete, ValidStatResp, Apply, Order, HexFields, Initialised, Meant;
    match e
    case OrderEvent(r, ok) =>
      RequestsAreMeant(l.cmd, r);
      OrderedCharacter(l, r, ok, at);
      OrderedCharacter(l, r, ok, 0);
      TensAreNotMeant(l.cmd, r, at);
      RequestsDoNotInitialise(l.cmd, r);
      InitialisedMeans(l.cmd);
      InitialisedMeans(Apply(l.cmd, r));
      InitialisedMeans(Order(l, r, ok).cmd);
    case ResponseEvent(buf, ok) =>
      ResponseLeavesTens(l, buf, ok, at);
    case _ =>
  }

  lemma InitialisedMeans(cmd: Text)
    requires IsCmd(cmd)
    ensures Initialised(cmd) <==> cmd[0] != 0
  {
  }

  lemma TensAreNotMeant(cmd: Text, r: Request, at: nat)
    requires IsCmd(cmd) && (at == 25 || at == 27) && Meant(cmd, r, Apply(cmd, r))
    ensures Apply(cmd, r)[at] == cmd[at]
  {
    hide Apply, HexVal, ReadDigits, IsDigit, DigitOf;
  }

  lemma ResponseLeavesTens(l: Link, buf: Text, ok: bool, at: nat)
    requires WF(l) && Initialised(l.cmd) && (at == 25 || at == 27)
    ensures Respond(l, buf, ok).cmd[at] == l.cmd[at] && Initialised(Respond(l, buf, ok).cmd)
  {
    hide Take, Continue, Complete;
    if Complete(buf) {
      TakeLeavesTens(l, buf, at);
      var m, v := Take(l, buf).0, Take(l, buf).1;
      ContinueLeavesTens(m.(await := Nothing, timerArmed := false, commOk := true, newStat := m.newStat || v == Change),
                         ok, at);
    }
  }

  lemma ContinueLeavesTens(l: Link, ok: bool, at: nat)
    requires WF(l) && (at == 25 || at == 27)
    ensures Continue(l, ok).cmd[at] == l.cmd[at] && Initialised(Continue(l, ok).cmd) == Initialised(l.cmd)
  {
    hide Stamp;
    StampKeepsFields(l.cmd);
  }

  lemma TakeLeavesTens(l: Link, buf: Text, at: nat)
    requires WF(l) && Initialised(l.cmd) && (at == 25 || at == 27)
    ensures Take(l, buf).0.cmd[at] == l.cmd[at] && Initialised(Take(l, buf).0.cmd)
  {
    hide Parse, CheckFcs, EndCodeOk, HexVal, HexChar, InitCmd;
    if l.await == StatResp && ValidStatResp(buf) {
      ParsedKeepsFields(l, buf);
      ParsedLeavesTens(l, buf, at);
    }
  }

  lemma ParsedLeavesTens(l: Link, buf: Text, at: nat)
    requires WF(l) && |buf| + 1 >= STAT_LEN && (at == 25 || at == 27)
    ensures ParsedBy(l, buf).cmd[at] == l.cmd[at]
  {
    hide ParseGroups;
    ParseTouchesDoorsOnly(GROUPS, Parsed(l.stat, l.chars, false, l.cmd, false, l.handset), buf + [0], at);
  }

  lemma {:induction false} TensDigitsStayOverRuns(l: Link, es: seq<Event>, at: nat)
    requires Inv(l) && Initialised(l.cmd) && (at == 25 || at == 27)
    ensures Run(l, es).cmd[at] == l.cmd[at]
    decreases |es|
  {
    if es != [] {
      hide Step, Inv, Initialised;
      StepKeeps(l, es[0]);
      TensDigitsStay(l, es[0], at);
      TensDigitsStayOverRuns(Step(l, es[0]), es[1..], at);
    }
  }
}
