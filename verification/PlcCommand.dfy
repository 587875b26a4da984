/** Characters and the command string of the PLC driver.
    A character is a byte; the C code's error results -1 are the byte 0xFF. */
module PlcCommand {
  import opened CArithmetic

  type Text = seq<bv8>

  const ZERO: bv8 := 0x30
  const STAR: bv8 := 0x2A
  const CR: bv8 := 0x0D
  const AT: bv8 := 0x40
  const INVALID: bv8 := 0xFF

  function HexVal(c: bv8): bv8 {
    if 0x30 <= c <= 0x39 then c - 0x30
    else if 0x41 <= c <= 0x46 then c - 0x41 + 10
    else if 0x61 <= c <= 0x66 then c - 0x61 + 10
    else INVALID
  }

  function HexChar(n: bv8): bv8 {
    if n < 10 then n + 0x30 else if n <= 15 then n - 10 + 0x41 else INVALID
  }

  lemma HexRoundTrip(n: bv8)
    ensures n <= 15 ==> HexVal(HexChar(n)) == n
    ensures HexVal(n) != INVALID ==> HexVal(n) <= 15
    ensures HexVal(n) != INVALID && n < 0x61 ==> HexChar(HexVal(n)) == n
  {
  }

  /** The frame check sequence: exclusive or of all characters. */
  function Fcs(s: Text): bv8 {
    if s == [] then 0 else Fcs(s[..|s| - 1]) ^ s[|s| - 1]
  }

  /** The check of a received message of that length, counted with the final carriage return it may lack.
      As in the C code, a character that is no digit counts -1; and characters are signed there, so that a sum
      of 128 or more agrees with no sequence. */
  predicate CheckFcs(s: Text, length: nat)
    requires 4 <= length && length - 3 < |s|
  {
    var hi, lo := HexVal(s[length - 4]), HexVal(s[length - 3]);
    (hi << 4) + lo == Fcs(s[..length - 4]) && (8 <= hi <= 15 ==> hi == 8 && lo == INVALID)
  }

  predicate SevenBit(s: Text) {
    forall i :: 0 <= i < |s| ==> s[i] < 0x80
  }

  lemma SevenBitXor(a: bv8, b: bv8)
    requires a < 0x80 && b < 0x80
    ensures a ^ b < 0x80
  {
  }

  lemma {:induction false} SevenBitFcs(s: Text)
    requires SevenBit(s)
    ensures Fcs(s) < 0x80
  {
    if s != [] {
      SevenBitFcs(s[..|s| - 1]);
      SevenBitXor(Fcs(s[..|s| - 1]), s[|s| - 1]);
    }
  }

  // ---------------------------------------------------------------- the command string

  const CMD_LEN := 57
  const HEAD: Text := [0x40, 0x30, 0x30, 0x57, 0x44, 0x30, 0x31, 0x30, 0x30]

  const DOME_POS := 9
  const MAX_FLOP := 13
  const MIN_FLOP := 15
  const INSTR := 17
  const DROPOUT := 18
  const SHUTTER := 19
  const DOME_STAT := 20
  const FOCUS := 21
  const APER_STAT := 22
  const FILT_STAT := 23
  const MIRROR_EHT := 24
  const FILT_NUM := 25
  const APER_NUM := 27
  const FOCUS_REG := 29
  const FOCUS_POS := 30
  const DOME_OFFS := 33
  const FCS_TERM := 53

  const INSTR_OPEN: bv8 := 0x1
  const ACQ_RESET: bv8 := 0x2
  const WATCHDOG: bv8 := 0x8
  const DOOR_OPEN: bv8 := 0x1
  const DOOR_CLOSE: bv8 := 0x2
  const FOC_GO: bv8 := 0x1
  const FOC_RESET: bv8 := 0x8
  const WHEEL_GO: bv8 := 0x2

  /** The array holds one character more than the command, for the terminating NUL. */
  predicate IsCmd(cmd: Text) {
    |cmd| == CMD_LEN + 1
  }

  function Put(cmd: Text, at: nat, bytes: Text): (r: Text)
    requires at + |bytes| <= |cmd|
    ensures |r| == |cmd|
  {
    cmd[..at] + bytes + cmd[at + |bytes|..]
  }

  function SetNibble(cmd: Text, at: nat, n: bv8): (r: Text)
    requires at < |cmd|
    ensures |r| == |cmd|
  {
    cmd[at := HexChar(n)]
  }

  /** Check sequence and terminator of a command about to be written. */
  function Stamp(cmd: Text): (r: Text)
    requires IsCmd(cmd)
    ensures IsCmd(r)
  {
    var f := Fcs(cmd[..FCS_TERM]);
    Put(cmd, FCS_TERM, [HexChar(f >> 4), HexChar(f & 0x0F), STAR, CR, 0])
  }

  lemma NibblesOfByte(f: bv8)
    ensures f >> 4 <= 15 && f & 0x0F <= 15
    ensures ((f >> 4) << 4) + (f & 0x0F) == f
    ensures f < 0x80 ==> f >> 4 < 8
  {
  }

  lemma StampKeepsBody(cmd: Text)
    requires IsCmd(cmd)
    ensures Stamp(cmd)[..FCS_TERM] == cmd[..FCS_TERM]
  {
  }

  /** What the driver writes passes the check it applies to what it receives. */
  lemma StampedPassesCheck(cmd: Text)
    requires IsCmd(cmd) && SevenBit(cmd[..FCS_TERM])
    ensures CheckFcs(Stamp(cmd), CMD_LEN)
  {
    var f := Fcs(cmd[..FCS_TERM]);
    SevenBitFcs(cmd[..FCS_TERM]);
    NibblesOfByte(f);
    HexRoundTrip(f >> 4);
    HexRoundTrip(f & 0x0F);
    StampKeepsBody(cmd);
  }

  /** Stamping twice changes nothing. */
  lemma StampIsIdempotent(cmd: Text)
    requires IsCmd(cmd)
    ensures Stamp(Stamp(cmd)) == Stamp(cmd)
  {
    StampKeepsBody(cmd);
  }

  // ---------------------------------------------------------------- requests

  datatype Request =
    | ResetWatchdog
    | SetDomeAzm(value: int)
    | DomeMove(value: int)
    | DomeShutter(value: int)
    | Dropout(value: int)
    | FocusGoto(value: int)
    | FocusMove(value: int)
    | InstrShutter(value: int)
    | AcqMirror(value: int)
    | MoveAper(value: int)
    | MoveFilt(value: int)
    | SetEht(value: int)
    | ResetMerlin
    | ClosePmtShutter

  const DIGITS: Text := [0x30, 0x31, 0x32, 0x33, 0x34, 0x35, 0x36, 0x37, 0x38, 0x39]

  /** Decimal digits, at least width of them. */
  function Decimal(n: nat, width: nat): (r: Text)
    ensures |r| >= width
    decreases n, width
  {
    if n == 0 && width == 0 then []
    else Decimal(n / 10, if width == 0 then 0 else width - 1) + [DIGITS[n % 10]]
  }

  function Magnitude(v: int): nat {
    if v < 0 then -v else v
  }

  function AzimuthDigits(value: int): (r: Text)
    ensures |r| == 4
  {
    Decimal(3599 - CMod(value, 3600), 4)[..4]
  }

  /** The first three digits, whatever the number of digits. */
  function FocusDigits(value: int): (r: Text)
    ensures |r| == 3
  {
    Decimal(Magnitude(value) % 65536, 3)[..3]
  }

  function Nibble(cmd: Text, at: nat): bv8
    requires at < |cmd|
  {
    HexVal(cmd[at])
  }

  /** A door command; to open a door the watchdog is reset as well. */
  function DoorRequest(cmd: Text, at: nat, value: int): (r: Text)
    requires IsCmd(cmd) && at < |cmd| && at != INSTR
    ensures IsCmd(r)
  {
    if value > 0 then SetNibble(SetNibble(cmd, at, DOOR_OPEN), INSTR, WATCHDOG | Nibble(cmd, INSTR))
    else if value < 0 then SetNibble(cmd, at, DOOR_CLOSE)
    else cmd[at := ZERO]
  }

  /** An order beside the bits of a digit that are kept. */
  function Keeping(n: bv8, keep: bv8, order: bv8): bv8 {
    if keep == 0 then order else order | (n & keep)
  }

  /** A wheel command that keeps one foreign bit of its character. */
  function WheelRequest(cmd: Text, at: nat, num: nat, value: int, keep: bv8): (r: Text)
    requires IsCmd(cmd) && at < |cmd| && num < |cmd|
    ensures IsCmd(r)
  {
    if 0 <= value < 10 then SetNibble(cmd, at, Keeping(Nibble(cmd, at), keep, WHEEL_GO))[num := DIGITS[value]]
    else if value > 0 then SetNibble(cmd, at, Keeping(Nibble(cmd, at), keep, 0x1))
    else SetNibble(cmd, at, Keeping(Nibble(cmd, at), keep, 0x4))
  }

  function FocusGotoRequest(cmd: Text, value: int): (r: Text)
    requires IsCmd(cmd)
    ensures IsCmd(r)
  {
    if value == 0 then SetNibble(cmd, FOCUS, FOC_RESET)
    else SetNibble(Put(cmd[FOCUS_REG := if value < 0 then 0x38 else ZERO], FOCUS_POS, FocusDigits(value)),
                   FOCUS, FOC_GO)
  }

  function CloseShutterRequest(cmd: Text): (r: Text)
    requires IsCmd(cmd)
    ensures IsCmd(r)
  {
    var a := SetNibble(cmd, INSTR, Nibble(cmd, INSTR) & !INSTR_OPEN);
    var b := SetNibble(a, APER_STAT, WHEEL_GO | (Nibble(cmd, APER_STAT) & 0x8))[APER_NUM + 1 := 0x38];
    var c := SetNibble(b, FILT_STAT, WHEEL_GO)[FILT_NUM + 1 := 0x39];
    SetNibble(c, MIRROR_EHT, Nibble(cmd, MIRROR_EHT) & 0x3)
  }

  /** What a request does to the command string. */
  function Apply(cmd: Text, r: Request): (u: Text)
    requires IsCmd(cmd)
    ensures IsCmd(u)
  {
    match r
    case ResetWatchdog => SetNibble(cmd, INSTR, WATCHDOG | Nibble(cmd, INSTR))
    case SetDomeAzm(v) => SetNibble(Put(cmd, DOME_POS, AzimuthDigits(v)), DOME_STAT, 0x1)
    case DomeMove(v) =>
      if v > 0 then SetNibble(cmd, DOME_STAT, 0x6)
      else if v < 0 then SetNibble(cmd, DOME_STAT, 0x4)
      else cmd[DOME_STAT := ZERO]
    case DomeShutter(v) => DoorRequest(cmd, SHUTTER, v)
    case Dropout(v) => DoorRequest(cmd, DROPOUT, v)
    case FocusGoto(v) => FocusGotoRequest(cmd, v)
    case FocusMove(v) => SetNibble(cmd, FOCUS, if v > 0 then 0x4 else if v < 0 then 0x2 else FOC_RESET)
    case InstrShutter(v) =>
      SetNibble(cmd, INSTR,
                if v == 1 then (Nibble(cmd, INSTR) & !INSTR_OPEN) | INSTR_OPEN else Nibble(cmd, INSTR) & !INSTR_OPEN)
    case AcqMirror(v) =>
      SetNibble(cmd, MIRROR_EHT, (Nibble(cmd, MIRROR_EHT) & 0x3) | (if v == 1 then 0 else if v == 2 then 0x8 else 0x4))
    case MoveAper(v) => WheelRequest(cmd, APER_STAT, APER_NUM + 1, v, 0x8)
    case MoveFilt(v) => WheelRequest(cmd, FILT_STAT, FILT_NUM + 1, v, 0)
    case SetEht(v) =>
      SetNibble(cmd, MIRROR_EHT, (Nibble(cmd, MIRROR_EHT) & 0xC) | (if v == 1 then 0x1 else if v == 2 then 0x2 else 0))
    case ResetMerlin => SetNibble(cmd, INSTR, Nibble(cmd, INSTR) | ACQ_RESET)
    case ClosePmtShutter => CloseShutterRequest(cmd)
  }

  // ---------------------------------------------------------------- one-shot commands

  /** Commands that a valid response to a command withdraws. */
  function ClearOneShots(cmd: Text): (r: Text)
    requires IsCmd(cmd)
    ensures IsCmd(r)
  {
    var a := SetNibble(cmd, INSTR, Nibble(cmd, INSTR) & !WATCHDOG);
    var b := SetNibble(a, INSTR, Nibble(a, INSTR) & !ACQ_RESET);
    var c := SetNibble(b, FOCUS, Nibble(b, FOCUS) & !(FOC_RESET | FOC_GO));
    c[APER_STAT := ZERO][FILT_STAT := ZERO]
  }

  datatype OneShot = WatchdogReset | CameraReset | FocusOrder | AperOrder | FiltOrder

  predicate Ordered(cmd: Text, o: OneShot)
    requires IsCmd(cmd)
  {
    match o
    case WatchdogReset => Nibble(cmd, INSTR) & WATCHDOG != 0
    case CameraReset => Nibble(cmd, INSTR) & ACQ_RESET != 0
    case FocusOrder => Nibble(cmd, FOCUS) & (FOC_RESET | FOC_GO) != 0
    case AperOrder => cmd[APER_STAT] != ZERO
    case FiltOrder => cmd[FILT_STAT] != ZERO
  }

  predicate HexAt(cmd: Text, at: nat)
    requires at < |cmd|
  {
    HexVal(cmd[at]) <= 15
  }

  /** An initialised command string has digits where the one-shots are. */
  predicate HexFields(cmd: Text)
    requires IsCmd(cmd)
  {
    HexAt(cmd, INSTR) && HexAt(cmd, FOCUS) && HexAt(cmd, APER_STAT) && HexAt(cmd, FILT_STAT) && HexAt(cmd, MIRROR_EHT)
  }

  lemma ClearedNibbles(n: bv8)
    requires n <= 15
    ensures var a := HexVal(HexChar(n & !WATCHDOG));
            var b := HexVal(HexChar(a & !ACQ_RESET));
            b <= 15 && b & WATCHDOG == 0 && b & ACQ_RESET == 0 && b & INSTR_OPEN == n & INSTR_OPEN
    ensures var f := HexVal(HexChar(n & !(FOC_RESET | FOC_GO)));
            f <= 15 && f & (FOC_RESET | FOC_GO) == 0
  {
  }

  /** After clearing no one-shot is left, and the shutter command is what it was. */
  lemma ClearOneShotsClears(cmd: Text)
    requires IsCmd(cmd) && HexFields(cmd)
    ensures var u := ClearOneShots(cmd);
            && HexFields(u)
            && (forall o: OneShot :: !Ordered(u, o))
            && Nibble(u, INSTR) & INSTR_OPEN == Nibble(cmd, INSTR) & INSTR_OPEN
            && (forall i :: 0 <= i < CMD_LEN + 1 && i !in {INSTR, FOCUS, APER_STAT, FILT_STAT} ==> u[i] == cmd[i])
  {
    ClearedNibbles(Nibble(cmd, INSTR));
    ClearedNibbles(Nibble(cmd, FOCUS));
    forall o: OneShot ensures !Ordered(ClearOneShots(cmd), o) {
    }
  }

  lemma NibbleOps(n: bv8)
    requires n <= 15
    ensures var a, b, c := HexVal(HexChar(WATCHDOG | n)), HexVal(HexChar(n & !INSTR_OPEN)),
                           HexVal(HexChar((n & !INSTR_OPEN) | INSTR_OPEN));
            && a <= 15 && b <= 15 && c <= 15 && a & WATCHDOG != 0
            && (n & ACQ_RESET != 0 ==> a & ACQ_RESET != 0 && b & ACQ_RESET != 0 && c & ACQ_RESET != 0)
            && (n & WATCHDOG != 0 ==> b & WATCHDOG != 0 && c & WATCHDOG != 0)
    ensures var d := HexVal(HexChar(n | ACQ_RESET));
            d <= 15 && d & ACQ_RESET != 0 && (n & WATCHDOG != 0 ==> d & WATCHDOG != 0)
  {
  }

  /** The only things a request does to the character that holds both resets. */
  lemma InstrAfterRequest(cmd: Text, r: Request)
    requires IsCmd(cmd)
    ensures var n, c := Nibble(cmd, INSTR), Apply(cmd, r)[INSTR];
            || c == cmd[INSTR] || c == HexChar(WATCHDOG | n) || c == HexChar(n | ACQ_RESET)
            || c == HexChar(n & !INSTR_OPEN) || c == HexChar((n & !INSTR_OPEN) | INSTR_OPEN)
  {
    if r.InstrShutter? || r.ClosePmtShutter? {
      ShutterMoves(cmd, r);
    } else if r.ResetWatchdog? || r.ResetMerlin? || r.DomeShutter? || r.Dropout? {
      ResetOrders(cmd, r);
    } else {
      InstrUntouched(cmd, r);
    }
    hide Apply, HexChar, HexVal;
  }

  lemma ShutterMoves(cmd: Text, r: Request)
    requires IsCmd(cmd) && (r.InstrShutter? || r.ClosePmtShutter?)
    ensures var n, c := Nibble(cmd, INSTR), Apply(cmd, r)[INSTR];
            c == HexChar(n & !INSTR_OPEN) || c == HexChar((n & !INSTR_OPEN) | INSTR_OPEN)
  {
    hide HexChar, Nibble, Put, DoorRequest, WheelRequest, FocusGotoRequest;
  }

  lemma ResetOrders(cmd: Text, r: Request)
    requires IsCmd(cmd) && (r.ResetWatchdog? || r.ResetMerlin? || r.DomeShutter? || r.Dropout?)
    ensures var n, c := Nibble(cmd, INSTR), Apply(cmd, r)[INSTR];
            c == cmd[INSTR] || c == HexChar(WATCHDOG | n) || c == HexChar(n | ACQ_RESET)
  {
    hide HexChar, HexVal;
  }

  lemma InstrUntouched(cmd: Text, r: Request)
    requires IsCmd(cmd) && !r.ResetWatchdog? && !r.InstrShutter? && !r.ResetMerlin?
    requires !r.DomeShutter? && !r.Dropout? && !r.ClosePmtShutter?
    ensures Apply(cmd, r)[INSTR] == cmd[INSTR]
  {
    hide HexChar, HexVal, AzimuthDigits, FocusDigits, Keeping;
  }

  /** No request ever withdraws a watchdog or camera reset that is still ordered. */
  lemma RequestsKeepResets(cmd: Text, r: Request)
    requires IsCmd(cmd) && HexAt(cmd, INSTR)
    ensures HexAt(Apply(cmd, r), INSTR)
    ensures Ordered(cmd, WatchdogReset) ==> Ordered(Apply(cmd, r), WatchdogReset)
    ensures Ordered(cmd, CameraReset) ==> Ordered(Apply(cmd, r), CameraReset)
  {
    InstrAfterRequest(cmd, r);
    NibbleOps(Nibble(cmd, INSTR));
    hide Apply, HexChar, HexVal;
  }

  // ---------------------------------------------------------------- closing the PMT shutter

  /** The shutter is told to close, both wheels to go to their safe slots, and the mirror order is withdrawn;
      nothing else changes. */
  predicate ClosesShutter(cmd: Text, u: Text)
    requires IsCmd(cmd) && IsCmd(u)
  {
    && Nibble(u, INSTR) == Nibble(cmd, INSTR) & !INSTR_OPEN
    && Nibble(u, APER_STAT) == WHEEL_GO | (Nibble(cmd, APER_STAT) & 0x8) && u[APER_NUM + 1] == ZERO + 8
    && Nibble(u, FILT_STAT) == WHEEL_GO && u[FILT_NUM + 1] == ZERO + 9
    && Nibble(u, MIRROR_EHT) == Nibble(cmd, MIRROR_EHT) & 0x3
    && forall i :: 0 <= i < |cmd| && i !in {INSTR, APER_STAT, FILT_STAT, MIRROR_EHT, APER_NUM + 1, FILT_NUM + 1} ==>
         u[i] == cmd[i]
  }

  lemma ShutterNibbles(n: bv8)
    requires n <= 15
    ensures n & !INSTR_OPEN <= 15 && WHEEL_GO | (n & 0x8) <= 15 && n & 0x3 <= 15
    ensures (n & !INSTR_OPEN) & INSTR_OPEN == 0
  {
  }

  lemma CloseShutterMeans(cmd: Text)
    requires IsCmd(cmd) && HexFields(cmd)
    ensures ClosesShutter(cmd, Apply(cmd, ClosePmtShutter))
    ensures Nibble(Apply(cmd, ClosePmtShutter), INSTR) & INSTR_OPEN == 0
  {
    hide HexVal, HexChar;
    var n, a, m := Nibble(cmd, INSTR), Nibble(cmd, APER_STAT), Nibble(cmd, MIRROR_EHT);
    ShutterNibbles(n);
    ShutterNibbles(a);
    ShutterNibbles(m);
    HexRoundTrip(n & !INSTR_OPEN);
    HexRoundTrip(WHEEL_GO | (a & 0x8));
    HexRoundTrip(WHEEL_GO);
    HexRoundTrip(m & 0x3);
  }
}
