/** What the PLC reports and how it prints it, by the places of the status string; and that the driver reads back what
    was printed, whatever it had read before. */
module PlcReport {
  import opened PlcCommand
  import opened PlcStatus
  import opened PlcProtocol
  import opened PlcSafety
  import opened PlcOrders

  /** What the PLC knows: positions as numbers, bit fields of four bits, and bytes of eight for the focus status and the
      keys of the handset. */
  datatype Report = Report(dome: int, dropout: bv8, shutter: bv8, domeBits: bv8, aper: bv8, filt: bv8, mirror: bv8,
                           instr: bv8, focus: int, focusBits: bv8, errors: bv8, tension: bv8, keys: bv8,
                           aperSlot: bv8, filtSlot: bv8)

  predicate Possible(r: Report) {
    && 0 <= r.dome <= 3599 && -999 <= r.focus <= 999
    && r.dropout <= 15 && r.shutter <= 15 && r.domeBits <= 15 && r.aper <= 15 && r.filt <= 15 && r.mirror <= 15
    && r.instr <= 15 && r.errors <= 15 && r.tension <= 15 && r.aperSlot <= 9 && r.filtSlot <= 9
  }

  function FocusSize(r: Report): nat {
    if r.focus < 0 then -r.focus else r.focus
  }

  /** A character that is a hexadecimal digit of either case. */
  predicate Shows(c: bv8, n: bv8) {
    (n <= 9 && c == 0x30 + n) || (10 <= n <= 15 && (c == 0x37 + n || c == 0x57 + n))
  }

  predicate Digits(s: Text) {
    forall i :: 0 <= i < |s| ==> IsDigit(s[i])
  }

  /** The status string at its places: the dome counts the other way round, an 8 before the focus means below 0, the
      focus byte comes high digit first, the handset byte low digit first. */
  predicate Prints(s: Text, r: Report)
    requires |s| >= STAT_LEN
  {
    && Digits(s[7..11]) && ReadDigits(s[7..11]) == 3599 - r.dome
    && Shows(s[12], r.dropout) && Shows(s[13], r.shutter) && Shows(s[14], r.domeBits)
    && Shows(s[15], r.aper) && Shows(s[16], r.filt) && Shows(s[17], r.mirror) && Shows(s[18], r.instr)
    && (if r.focus < 0 then s[19] == 0x38 else s[19] == 0x30)
    && Digits(s[20..23]) && ReadDigits(s[20..23]) == FocusSize(r)
    && Shows(s[25], r.focusBits / 16) && Shows(s[26], r.focusBits % 16)
    && Shows(s[27], r.errors) && Shows(s[28], r.tension)
    && Shows(s[29], r.keys % 16) && Shows(s[30], r.keys / 16)
    && Shows(s[32], r.aperSlot) && Shows(s[34], r.filtSlot)
  }

  /** What programs are to be told: dome bits are 1 for an open trapdoor and 2 for a moving dome, bit 1 an open PMT
      shutter, and the errors 4 for a power failure and 8 for a tripped watchdog. */
  function Tells(g: Group, r: Report): Value {
    match g
    case DomePos => Number(r.dome)
    case DropoutDoor => Code(r.dropout)
    case ShutterDoor => Code(r.shutter)
    case DomeStat => Flags(r.domeBits & 0x1 != 0, r.domeBits & 0x2 != 0)
    case AperStat => Code(r.aper)
    case FiltStat => Code(r.filt)
    case AcqMir => Code(r.mirror)
    case InstrShutt => Flags(r.instr & 0x1 != 0, false)
    case Focus => Number(r.focus)
    case FocStat => Code(r.focusBits)
    case CritErr => Flags(r.errors & 0x4 != 0, r.errors & 0x8 != 0)
    case Eht => Code(r.tension)
    case HandsetKeys => Code(r.keys)
    case AperNum => Code(r.aperSlot)
    case FiltNum => Code(r.filtSlot)
  }

  function Told(r: Report): Status {
    map g: Group | true :: Tells(g, r)
  }

  // ---------------------------------------------------------------- reading

  lemma ShownDigit(c: bv8, n: bv8)
    requires Shows(c, n)
    ensures HexVal(c) == n && n <= 15 && c != 0 && (n <= 9 ==> c - 0x30 == n)
  {
  }

  lemma ByteOfDigits(b: bv8)
    ensures ((b / 16) << 4) | (b % 16) == b && (b % 16) | ((b / 16) << 4) == b
  {
  }

  lemma FourDigits(s: Text)
    requires |s| == 4 && Digits(s)
    ensures ReadDigits(s) == Digit(s[0]) * 1000 + Digit(s[1]) * 100 + Digit(s[2]) * 10 + Digit(s[3])
    ensures s[0] != 0
  {
    hide ReadDigits;
    ThreeDigits(s[..3]);
    ReadAppend(s[..3], s[3]);
    assert s == s[..3] + [s[3]];
    SameDigit(s[3]);
  }

  lemma ThreeDigits(s: Text)
    requires |s| == 3 && Digits(s)
    ensures ReadDigits(s) == Digit(s[0]) * 100 + Digit(s[1]) * 10 + Digit(s[2])
    ensures s[0] != 0
  {
    hide ReadDigits;
    TwoDigits(s[0], s[1]);
    ReadAppend([s[0], s[1]], s[2]);
    assert s == [s[0], s[1]] + [s[2]];
    SameDigit(s[0]);
    SameDigit(s[1]);
    SameDigit(s[2]);
  }

  lemma SameDigit(c: bv8)
    requires IsDigit(c)
    ensures Digit(c) == DigitOf(c) && 0 <= Digit(c) <= 9
  {
  }

  lemma DomeIsRead(s: Text, r: Report)
    requires |s| >= STAT_LEN && Possible(r) && Prints(s, r)
    ensures DecodeGroup(DomePos, Chars(DomePos, s)) == Number(r.dome) && Chars(DomePos, s)[0] != 0
  {
    hide ReadDigits, Shows, Digit;
    var cs := Chars(DomePos, s);
    assert cs == s[7..11];
    FourDigits(cs);
  }

  lemma FocusIsRead(s: Text, r: Report)
    requires |s| >= STAT_LEN && Possible(r) && Prints(s, r)
    ensures DecodeGroup(Focus, Chars(Focus, s)) == Number(r.focus) && Chars(Focus, s)[0] != 0
  {
    hide ReadDigits, Shows, Digit;
    var cs := Chars(Focus, s);
    assert cs[0] == s[19] && cs[1..] == s[20..23];
    ThreeDigits(cs[1..]);
  }

  lemma FocusByteIsRead(s: Text, r: Report)
    requires |s| >= STAT_LEN && Possible(r) && Prints(s, r)
    ensures DecodeGroup(FocStat, Chars(FocStat, s)) == Code(r.focusBits) && Chars(FocStat, s)[0] != 0
  {
    hide ReadDigits, Shows, HexVal, Digits;
    ByteOfDigits(r.focusBits);
    ShownDigit(s[25], r.focusBits / 16);
    ShownDigit(s[26], r.focusBits % 16);
  }

  lemma KeysAreRead(s: Text, r: Report)
    requires |s| >= STAT_LEN && Possible(r) && Prints(s, r)
    ensures DecodeGroup(HandsetKeys, Chars(HandsetKeys, s)) == Code(r.keys) && Chars(HandsetKeys, s)[0] != 0
  {
    hide ReadDigits, Shows, HexVal, Digits;
    ByteOfDigits(r.keys);
    ShownDigit(s[29], r.keys % 16);
    ShownDigit(s[30], r.keys / 16);
  }

  /** The single characters. */
  function Place(g: Group): nat {
    match g
    case DropoutDoor => 12
    case ShutterDoor => 13
    case DomeStat => 14
    case AperStat => 15
    case FiltStat => 16
    case AcqMir => 17
    case InstrShutt => 18
    case CritErr => 27
    case Eht => 28
    case AperNum => 32
    case FiltNum => 34
    case _ => 0
  }

  function Shown(g: Group, r: Report): bv8 {
    match g
    case DropoutDoor => r.dropout
    case ShutterDoor => r.shutter
    case DomeStat => r.domeBits
    case AperStat => r.aper
    case FiltStat => r.filt
    case AcqMir => r.mirror
    case InstrShutt => r.instr
    case CritErr => r.errors
    case Eht => r.tension
    case AperNum => r.aperSlot
    case FiltNum => r.filtSlot
    case _ => 0
  }

  lemma CharacterIsShown(g: Group, s: Text, r: Report)
    requires |s| >= STAT_LEN && Possible(r) && Prints(s, r) && Place(g) != 0
    ensures Shows(s[Place(g)], Shown(g, r)) && (g == AperNum || g == FiltNum ==> Shown(g, r) <= 9)
    ensures Chars(g, s) == [s[Place(g)]]
  {
    hide Shows, ReadDigits, Digits;
  }

  lemma CharacterIsRead(g: Group, s: Text, r: Report)
    requires |s| >= STAT_LEN && Possible(r) && Prints(s, r) && Place(g) != 0
    ensures DecodeGroup(g, Chars(g, s)) == Tells(g, r) && Chars(g, s)[0] != 0
  {
    hide Shows, Prints, Possible, Chars, DecodeGroup, Tells;
    CharacterIsShown(g, s, r);
    ShownDigit(s[Place(g)], Shown(g, r));
    DigitIsTold(g, s[Place(g)], r);
  }

  lemma DigitIsTold(g: Group, c: bv8, r: Report)
    requires Place(g) != 0 && HexVal(c) == Shown(g, r) && (g == AperNum || g == FiltNum ==> c - 0x30 == Shown(g, r))
    ensures DecodeGroup(g, [c]) == Tells(g, r)
  {
    hide HexVal;
  }

  lemma GroupIsRead(g: Group, s: Text, r: Report)
    requires |s| >= STAT_LEN && Possible(r) && Prints(s, r)
    ensures DecodeGroup(g, Chars(g, s)) == Tells(g, r) && Chars(g, s)[0] != 0
  {
    hide Prints, Possible, DecodeGroup, Chars;
    if g == DomePos {
      DomeIsRead(s, r);
    } else if g == Focus {
      FocusIsRead(s, r);
    } else if g == FocStat {
      FocusByteIsRead(s, r);
    } else if g == HandsetKeys {
      KeysAreRead(s, r);
    } else {
      CharacterIsRead(g, s, r);
    }
  }

  /** Whatever was read before, the driver tells what the PLC prints. */
  lemma ReportIsRead(p: Parsed, s: Text, r: Report)
    requires Wide(p) && |s| >= STAT_LEN && AllSynced(p) && Possible(r) && Prints(s, r)
    ensures Parse(p, s).stat == Told(r) && AllSynced(Parse(p, s))
  {
    hide Prints, Possible, DecodeGroup, Chars, Parse, Tells;
    forall g: Group ensures DecodeGroup(g, Chars(g, s)) == Tells(g, r) && Chars(g, s)[0] != 0 {
      GroupIsRead(g, s, r);
    }
    ParseIsDecode(p, s);
  }

  // ---------------------------------------------------------------- printing

  /** Doors, dome, wheels, mirror, PMT shutter and the sign of the focus; gap holds the characters of the whole response
      that the driver does not look at. */
  function Upper(r: Report, gap: Text): (s: Text)
    requires |gap| == 45
    ensures |s| == 9
  {
    [gap[0], HexChar(r.dropout), HexChar(r.shutter), HexChar(r.domeBits), HexChar(r.aper), HexChar(r.filt),
     HexChar(r.mirror), HexChar(r.instr), if r.focus < 0 then 0x38 else 0x30]
  }

  /** Focus status, errors, tension, keys and the slots of the wheels. */
  function Lower(r: Report, gap: Text): (s: Text)
    requires |gap| == 45
    ensures |s| == 12
  {
    [gap[1], gap[2], HexChar(r.focusBits / 16), HexChar(r.focusBits % 16), HexChar(r.errors), HexChar(r.tension),
     HexChar(r.keys % 16), HexChar(r.keys / 16), gap[3], HexChar(r.aperSlot), gap[4], HexChar(r.filtSlot)]
  }

  const START: Text := [0x40, 0x30, 0x30, 0x52, 0x44, 0x30, 0x30]

  /** The status response up to its check sequence. */
  function Body(r: Report, gap: Text): (s: Text)
    requires Possible(r) && |gap| == 45
    ensures |s| == 75
  {
    START + Decimal(3599 - r.dome, 4)[..4] + Upper(r, gap) + Decimal(FocusSize(r), 3)[..3] + Lower(r, gap) + gap[5..]
  }

  /** The whole response, with the exclusive or of its characters and the final asterisk. */
  function Print(r: Report, gap: Text): (s: Text)
    requires Possible(r) && |gap| == 45
    ensures |s| == 78
  {
    var f := Fcs(Body(r, gap));
    Body(r, gap) + [HexChar(f >> 4), HexChar(f & 0x0F), 0x2A]
  }

  lemma DigitIsShown(n: bv8)
    requires n <= 15
    ensures Shows(HexChar(n), n) && HexChar(n) < 0x80
  {
  }

  lemma HalvesOfByte(b: bv8)
    ensures b / 16 <= 15 && b % 16 <= 15
  {
  }

  lemma NumberIsPrinted(n: nat, w: nat)
    requires (w == 3 && n <= 999) || (w == 4 && n <= 9999)
    ensures Digits(Decimal(n, w)[..w]) && ReadDigits(Decimal(n, w)[..w]) == n
  {
    hide ReadDigits, Decimal, Pow10, IsDigit;
    DecimalReadsBack(n, w);
    FirstDigits(n, w);
  }

  lemma Stretches(a: Text, d: Text, x: Text, f: Text, y: Text, z: Text)
    requires |a| == 7 && |d| == 4 && |x| == 9 && |f| == 3 && |y| == 12 && |z| == 40
    ensures var s := a + d + x + f + y + z;
            s[..7] == a && s[7..11] == d && s[11..20] == x && s[20..23] == f && s[23..35] == y && s[35..] == z
  {
  }

  lemma SevenBitStretches(s: Text)
    requires |s| == 75 && SevenBit(s[..7]) && SevenBit(s[7..11]) && SevenBit(s[11..20]) && SevenBit(s[20..23])
    requires SevenBit(s[23..35]) && SevenBit(s[35..])
    ensures SevenBit(s)
  {
    forall i | 0 <= i < |s| ensures s[i] < 0x80 {
      assert s[i] == if i < 7 then s[..7][i] else if i < 11 then s[7..11][i - 7] else if i < 20 then s[11..20][i - 11]
                     else if i < 23 then s[20..23][i - 20] else if i < 35 then s[23..35][i - 23] else s[35..][i - 35];
    }
  }

  lemma StretchesOfBody(r: Report, gap: Text)
    requires Possible(r) && |gap| == 45
    ensures var s := Body(r, gap);
            && s[..7] == START && s[7..11] == Decimal(3599 - r.dome, 4)[..4] && s[11..20] == Upper(r, gap)
            && s[20..23] == Decimal(FocusSize(r), 3)[..3] && s[23..35] == Lower(r, gap) && s[35..] == gap[5..]
  {
    hide Decimal, Upper, Lower;
    Stretches(START, Decimal(3599 - r.dome, 4)[..4], Upper(r, gap), Decimal(FocusSize(r), 3)[..3], Lower(r, gap),
              gap[5..]);
  }

  lemma DigitsBelow(s: Text)
    requires Digits(s)
    ensures SevenBit(s)
  {
  }

  lemma BodyIsSevenBit(r: Report, gap: Text)
    requires Possible(r) && |gap| == 45 && SevenBit(gap)
    ensures SevenBit(Body(r, gap))
  {
    hide HexChar, Decimal, ReadDigits, Digits, Body, Upper, Lower, SevenBit;
    StretchesOfBody(r, gap);
    NumberIsPrinted(3599 - r.dome, 4);
    NumberIsPrinted(FocusSize(r), 3);
    DigitsBelow(Decimal(3599 - r.dome, 4)[..4]);
    DigitsBelow(Decimal(FocusSize(r), 3)[..3]);
    SmallStretches(r, gap);
    SevenBitStretches(Body(r, gap));
  }

  lemma SmallStretches(r: Report, gap: Text)
    requires Possible(r) && |gap| == 45 && SevenBit(gap)
    ensures SevenBit(START) && SevenBit(Upper(r, gap)) && SevenBit(Lower(r, gap)) && SevenBit(gap[5..])
  {
    hide HexChar, Upper, Lower;
    UpperIsSevenBit(r, gap);
    LowerIsSevenBit(r, gap);
  }

  lemma UpperIsSevenBit(r: Report, gap: Text)
    requires Possible(r) && |gap| == 45 && SevenBit(gap)
    ensures SevenBit(Upper(r, gap))
  {
    hide HexChar, Possible, SevenBit;
    DigitsAreSevenBit(r);
    SevenBitAt(gap, 0);
    NineSevenBit(gap[0], HexChar(r.dropout), HexChar(r.shutter), HexChar(r.domeBits), HexChar(r.aper), HexChar(r.filt),
                 HexChar(r.mirror), HexChar(r.instr), if r.focus < 0 then 0x38 else 0x30);
  }

  lemma SevenBitAt(s: Text, i: nat)
    requires SevenBit(s) && i < |s|
    ensures s[i] < 0x80
  {
  }

  lemma NineSevenBit(a: bv8, b: bv8, c: bv8, d: bv8, e: bv8, f: bv8, g: bv8, h: bv8, i: bv8)
    requires a < 0x80 && b < 0x80 && c < 0x80 && d < 0x80 && e < 0x80 && f < 0x80 && g < 0x80 && h < 0x80 && i < 0x80
    ensures SevenBit([a, b, c, d, e, f, g, h, i])
  {
  }

  lemma TwelveSevenBit(a: bv8, b: bv8, c: bv8, d: bv8, e: bv8, f: bv8, g: bv8, h: bv8, i: bv8, j: bv8, k: bv8, l: bv8)
    requires a < 0x80 && b < 0x80 && c < 0x80 && d < 0x80 && e < 0x80 && f < 0x80 && g < 0x80 && h < 0x80
    requires i < 0x80 && j < 0x80 && k < 0x80 && l < 0x80
    ensures SevenBit([a, b, c, d, e, f, g, h, i, j, k, l])
  {
  }

  lemma LowerIsSevenBit(r: Report, gap: Text)
    requires Possible(r) && |gap| == 45 && SevenBit(gap)
    ensures SevenBit(Lower(r, gap))
  {
    hide HexChar, Possible, SevenBit;
    DigitsAreSevenBit(r);
    SevenBitAt(gap, 1);
    SevenBitAt(gap, 2);
    SevenBitAt(gap, 3);
    SevenBitAt(gap, 4);
    TwelveSevenBit(gap[1], gap[2], HexChar(r.focusBits / 16), HexChar(r.focusBits % 16), HexChar(r.errors),
                   HexChar(r.tension), HexChar(r.keys % 16), HexChar(r.keys / 16), gap[3], HexChar(r.aperSlot), gap[4],
                   HexChar(r.filtSlot));
  }

  lemma DigitsAreSevenBit(r: Report)
    requires Possible(r)
    ensures HexChar(r.dropout) < 0x80 && HexChar(r.shutter) < 0x80 && HexChar(r.domeBits) < 0x80
    ensures HexChar(r.aper) < 0x80 && HexChar(r.filt) < 0x80 && HexChar(r.mirror) < 0x80 && HexChar(r.instr) < 0x80
    ensures HexChar(r.errors) < 0x80 && HexChar(r.tension) < 0x80
    ensures HexChar(r.aperSlot) < 0x80 && HexChar(r.filtSlot) < 0x80
    ensures HexChar(r.focusBits / 16) < 0x80 && HexChar(r.focusBits % 16) < 0x80
    ensures HexChar(r.keys % 16) < 0x80 && HexChar(r.keys / 16) < 0x80
  {
    hide HexChar, Shows;
    HalvesOfByte(r.focusBits);
    HalvesOfByte(r.keys);
    forall n: bv8 | n <= 15 ensures HexChar(n) < 0x80 {
      DigitIsShown(n);
    }
  }

  lemma UpperShows(r: Report, gap: Text)
    requires Possible(r) && |gap| == 45
    ensures var x := Upper(r, gap);
            && Shows(x[1], r.dropout) && Shows(x[2], r.shutter) && Shows(x[3], r.domeBits) && Shows(x[4], r.aper)
            && Shows(x[5], r.filt) && Shows(x[6], r.mirror) && Shows(x[7], r.instr)
            && x[8] == if r.focus < 0 then 0x38 else 0x30
  {
    hide HexChar, Shows;
    forall n: bv8 | n <= 15 ensures Shows(HexChar(n), n) {
      DigitIsShown(n);
    }
  }

  lemma LowerShows(r: Report, gap: Text)
    requires Possible(r) && |gap| == 45
    ensures var y := Lower(r, gap);
            && Shows(y[2], r.focusBits / 16) && Shows(y[3], r.focusBits % 16)
            && Shows(y[4], r.errors) && Shows(y[5], r.tension)
            && Shows(y[6], r.keys % 16) && Shows(y[7], r.keys / 16)
            && Shows(y[9], r.aperSlot) && Shows(y[11], r.filtSlot)
  {
    hide HexChar, Shows;
    HalvesOfByte(r.focusBits);
    HalvesOfByte(r.keys);
    forall n: bv8 | n <= 15 ensures Shows(HexChar(n), n) {
      DigitIsShown(n);
    }
  }

  /** What is printed says the report. */
  lemma PrintPrints(r: Report, gap: Text)
    requires Possible(r) && |gap| == 45
    ensures Prints(Print(r, gap) + [0], r)
  {
    hide Decimal, ReadDigits, Shows, Digits, Fcs, Body, Upper, Lower, HexChar;
    var s, b := Print(r, gap) + [0], Body(r, gap);
    StretchesOfBody(r, gap);
    NumberIsPrinted(3599 - r.dome, 4);
    NumberIsPrinted(FocusSize(r), 3);
    UpperShows(r, gap);
    LowerShows(r, gap);
    assert s[7..11] == b[7..11] && s[20..23] == b[20..23];
    assert forall i :: 0 <= i < 9 ==> s[11 + i] == b[11..20][i];
    assert forall i :: 0 <= i < 12 ==> s[23 + i] == b[23..35][i];
    FromStretches(s, r, b[11..20], b[23..35]);
  }

  lemma FromStretches(s: Text, r: Report, x: Text, y: Text)
    requires |s| >= STAT_LEN && |x| == 9 && |y| == 12
    requires (forall i :: 0 <= i < 9 ==> s[11 + i] == x[i]) && (forall i :: 0 <= i < 12 ==> s[23 + i] == y[i])
    requires Digits(s[7..11]) && ReadDigits(s[7..11]) == 3599 - r.dome
    requires Digits(s[20..23]) && ReadDigits(s[20..23]) == FocusSize(r)
    requires Shows(x[1], r.dropout) && Shows(x[2], r.shutter) && Shows(x[3], r.domeBits) && Shows(x[4], r.aper)
    requires Shows(x[5], r.filt) && Shows(x[6], r.mirror) && Shows(x[7], r.instr)
    requires x[8] == if r.focus < 0 then 0x38 else 0x30
    requires Shows(y[2], r.focusBits / 16) && Shows(y[3], r.focusBits % 16) && Shows(y[4], r.errors)
    requires Shows(y[5], r.tension) && Shows(y[6], r.keys % 16) && Shows(y[7], r.keys / 16)
    requires Shows(y[9], r.aperSlot) && Shows(y[11], r.filtSlot)
    ensures Prints(s, r)
  {
    hide Shows, Digits, ReadDigits;
    assert s[12] == s[11 + 1] && s[13] == s[11 + 2] && s[14] == s[11 + 3] && s[15] == s[11 + 4] && s[16] == s[11 + 5];
    assert s[17] == s[11 + 6] && s[18] == s[11 + 7] && s[19] == s[11 + 8];
    assert s[25] == s[23 + 2] && s[26] == s[23 + 3] && s[27] == s[23 + 4] && s[28] == s[23 + 5];
    assert s[29] == s[23 + 6] && s[30] == s[23 + 7] && s[32] == s[23 + 9] && s[34] == s[23 + 11];
  }

  /** And the driver accepts it. */
  lemma PrintIsAccepted(r: Report, gap: Text)
    requires Possible(r) && |gap| == 45 && SevenBit(gap)
    ensures Complete(Print(r, gap)) && ValidStatResp(Print(r, gap))
  {
    hide Decimal, HexChar, HexVal, Fcs, SevenBit, Possible, Body;
    var s, b := Print(r, gap), Body(r, gap);
    StretchesOfBody(r, gap);
    var f := Fcs(b);
    assert s[..75] == b;
    assert s[..7] == b[..7] == START && s[..5] == START[..5] && s[0] == START[0] && s[6] == START[6];
    BodyIsSevenBit(r, gap);
    SevenBitFcs(b);
    NibblesOfByte(f);
    HexRoundTrip(f >> 4);
    HexRoundTrip(f & 0x0F);
    ZeroDigits();
  }

  lemma ZeroDigits()
    ensures HexVal(0x30) == 0
  {
  }

  // ---------------------------------------------------------------- over the link

  /** The status and the characters of the link belong together. */
  ghost predicate Read(l: Link)
    requires WF(l)
  {
    AllSynced(Parsed(l.stat, l.chars, false, l.cmd, false, l.handset))
  }

  /** No response holds a NUL where the driver looks. */
  predicate Legible(e: Event) {
    e.ResponseEvent? && |e.buf| + 1 >= STAT_LEN ==> NoNul(e.buf + [0])
  }

  lemma SameStatus(l: Link, m: Link)
    requires WF(l) && WF(m) && Read(l) && m.stat == l.stat && m.chars == l.chars
    ensures Read(m)
  {
    hide Chars, DecodeGroup;
    var p, q := Parsed(l.stat, l.chars, false, l.cmd, false, l.handset),
                Parsed(m.stat, m.chars, false, m.cmd, false, m.handset);
    forall g: Group ensures Synced(g, q) {
      assert Synced(g, p);
    }
  }

  lemma ParsedIsRead(l: Link, m: Link, p: Parsed)
    requires WF(m) && Wide(p) && AllSynced(p) && m.stat == p.stat && m.chars == p.chars
    ensures Read(m)
  {
    hide Chars, DecodeGroup;
    var q := Parsed(m.stat, m.chars, false, m.cmd, false, m.handset);
    forall g: Group ensures Synced(g, q) {
      assert Synced(g, p);
    }
  }

  predicate SameReport(l: Link, m: Link) {
    m.stat == l.stat && m.chars == l.chars && m.newStat == l.newStat
  }

  lemma CommandKeepsStatus(l: Link, ok: bool)
    requires WF(l)
    ensures SameReport(l, SendCmd(l, ok))
  {
    hide Stamp, Initialised;
  }

  lemma RequestKeepsStatus(l: Link, ok: bool)
    ensures SameReport(l, SendStatReq(l, ok))
  {
  }

  lemma ContinueKeepsStatus(l: Link, ok: bool)
    requires WF(l)
    ensures SameReport(l, Continue(l, ok))
  {
    hide SendCmd, SendStatReq;
    CommandKeepsStatus(l, ok);
    RequestKeepsStatus(l, ok);
  }

  lemma TakenStatus(l: Link, buf: Text)
    requires WF(l)
    ensures var m, v := Take(l, buf).0, Take(l, buf).1;
            if l.await == StatResp && ValidStatResp(buf)
            then m.stat == ParsedBy(l, buf).stat && m.chars == ParsedBy(l, buf).chars && m.newStat == l.newStat &&
                 (ParsedBy(l, buf).changed <==> v == Change) && v != Bad
            else m.stat == l.stat && m.chars == l.chars && m.newStat == l.newStat && v != Change
  {
    hide ParsedBy, ValidStatResp, ValidCmdResp, ClearOneShots, InitCmd, Initialised;
  }

  lemma RespondedStatus(l: Link, buf: Text, ok: bool)
    requires WF(l)
    ensures var m := Respond(l, buf, ok);
            if Complete(buf) && l.await == StatResp && ValidStatResp(buf)
            then m.stat == ParsedBy(l, buf).stat && m.chars == ParsedBy(l, buf).chars &&
                 (m.newStat <==> l.newStat || ParsedBy(l, buf).changed)
            else SameReport(l, m)
  {
    hide ParsedBy, ValidStatResp, Complete, Take, Continue;
    TakenStatus(l, buf);
    var m, v := Take(l, buf).0, Take(l, buf).1;
    ContinueKeepsStatus(m.(await := Nothing, timerArmed := false, commOk := true, newStat := m.newStat || v == Change),
                        ok);
  }

  /** Only an accepted status response changes the status, and no change goes without notice, until it is read. */
  lemma StatusIsFromResponses(l: Link, e: Event)
    requires WF(l)
    ensures var m := Step(l, e);
            if e.ResponseEvent? && Complete(e.buf) && l.await == StatResp && ValidStatResp(e.buf)
            then m.stat == ParsedBy(l, e.buf).stat && m.chars == ParsedBy(l, e.buf).chars &&
                 (m.newStat <==> l.newStat || ParsedBy(l, e.buf).changed)
            else m.stat == l.stat && m.chars == l.chars && (m.newStat <==> l.newStat && !e.ReadEvent?)
  {
    hide ParsedBy, ValidStatResp, Complete, Apply, Respond, SendCmd, SendStatReq;
    match e
    case OrderEvent(r, ok) =>
      CommandKeepsStatus(l.(cmd := Apply(l.cmd, r)), ok);
    case PollEvent(ok) =>
      RequestKeepsStatus(l.(pollQueued := false), ok);
    case ResponseEvent(buf, ok) =>
      RespondedStatus(l, buf, ok);
    case _ =>
  }

  lemma StepKeepsRead(l: Link, e: Event)
    requires WF(l) && Read(l) && Legible(e)
    ensures Read(Step(l, e))
  {
    hide Step, Read, Chars, ValidStatResp, Complete, Parse, Synced;
    StatusIsFromResponses(l, e);
    if e.ResponseEvent? && Complete(e.buf) && l.await == StatResp && ValidStatResp(e.buf) {
      LongEnough(e.buf);
      ParsedByKeeps(l, e.buf);
      ParsedIsRead(l, Step(l, e), ParsedBy(l, e.buf));
    } else {
      SameStatus(l, Step(l, e));
    }
  }

  lemma LongEnough(buf: Text)
    requires ValidStatResp(buf)
    ensures |buf| + 1 >= STAT_LEN
  {
  }

  lemma ParsedByKeeps(l: Link, buf: Text)
    requires WF(l) && Read(l) && |buf| + 1 >= STAT_LEN && NoNul(buf + [0])
    ensures AllSynced(ParsedBy(l, buf))
  {
    hide AllSynced, NoNul, Parse;
    ParseIsDecode(Parsed(l.stat, l.chars, false, l.cmd, false, l.handset), buf + [0]);
  }

  lemma {:induction false} RunKeepsRead(l: Link, es: seq<Event>)
    requires Inv(l) && Read(l) && forall e :: e in es ==> Legible(e)
    ensures Read(Run(l, es))
    decreases |es|
  {
    hide Read, Legible, Step;
    if es != [] {
      StepKeeps(l, es[0]);
      StepKeepsRead(l, es[0]);
      RunKeepsRead(Step(l, es[0]), es[1..]);
    }
  }

  lemma LoadIsRead(ok: bool)
    ensures Read(Load(ok))
  {
    hide Chars, DecodeGroup;
    FreshIsSynced(NO_CMD);
    ParsedIsRead(Load(ok), Load(ok), Fresh(NO_CMD));
  }

  /** A notice is given exactly for an accepted status response that differs from the one before in a character that the
      driver decodes, and stays until it is read. */
  lemma NoticeIsGivenExactly(l: Link, e: Event)
    requires WF(l) && Read(l) && Legible(e)
    ensures Step(l, e).newStat <==>
            || (l.newStat && !e.ReadEvent?)
            || (e.ResponseEvent? && Complete(e.buf) && l.await == StatResp && ValidStatResp(e.buf) &&
                exists g: Group :: Chars(g, l.chars) != Chars(g, e.buf + [0]))
  {
    hide Step, Read, Complete, Parse, Chars, ValidStatResp;
    StatusIsFromResponses(l, e);
    if e.ResponseEvent? && Complete(e.buf) && l.await == StatResp && ValidStatResp(e.buf) {
      LongEnough(e.buf);
      ChangedExactly(l, e.buf);
    }
  }

  lemma ChangedExactly(l: Link, buf: Text)
    requires WF(l) && Read(l) && |buf| + 1 >= STAT_LEN && NoNul(buf + [0])
    ensures ParsedBy(l, buf).changed <==> exists g: Group :: Chars(g, l.chars) != Chars(g, buf + [0])
  {
    hide AllSynced, NoNul, Parse, Chars;
    ParseIsDecode(Parsed(l.stat, l.chars, false, l.cmd, false, l.handset), buf + [0]);
  }

  /** A report that was awaited is told, and with notice if it says anything new. */
  lemma AwaitedReportIsTold(l: Link, r: Report, gap: Text, ok: bool)
    requires WF(l) && Read(l) && l.await == StatResp && Possible(r) && |gap| == 45 && SevenBit(gap)
    ensures var m := Step(l, ResponseEvent(Print(r, gap), ok));
            m.stat == Told(r) && (l.stat != m.stat ==> m.newStat)
  {
    hide Step, ValidStatResp, Complete, Print, Prints, Told, SevenBit, Parse, AllSynced;
    var s := Print(r, gap);
    PrintIsAccepted(r, gap);
    PrintPrints(r, gap);
    StatusIsFromResponses(l, ResponseEvent(s, ok));
    ReportIsRead(Parsed(l.stat, l.chars, false, l.cmd, false, l.handset), s + [0], r);
    UnchangedStatus(Parsed(l.stat, l.chars, false, l.cmd, false, l.handset), s + [0]);
  }

  lemma {:induction false} UnchangedGroups(gs: seq<Group>, p: Parsed, s: Text)
    requires Wide(p) && |s| >= STAT_LEN
    ensures p.changed ==> ParseGroups(gs, p, s).changed
    ensures !ParseGroups(gs, p, s).changed ==> ParseGroups(gs, p, s).stat == p.stat
    decreases |gs|
  {
    if gs != [] {
      hide Chars, DecodeGroup, SideEffect;
      UnchangedGroups(gs[1..], ParseGroup(gs[0], p, s), s);
    }
  }

  lemma UnchangedStatus(p: Parsed, s: Text)
    requires Wide(p) && |s| >= STAT_LEN
    ensures !Parse(p, s).changed ==> Parse(p, s).stat == p.stat
  {
    UnchangedGroups(GROUPS, p.(changed := false, withdrawn := false), s);
  }

  /** From loading on, whatever happened: the report that answers a status request is what the driver tells, with
      notice if it is new, for every report the PLC can print. */
  lemma ReportsAreTold(loaded: bool, es: seq<Event>, r: Report, gap: Text, ok: bool)
    requires (forall e :: e in es ==> Legible(e)) && Possible(r) && |gap| == 45 && SevenBit(gap)
    requires Run(Load(loaded), es).await == StatResp
    ensures var l := Run(Load(loaded), es);
            var m := Step(l, ResponseEvent(Print(r, gap), ok));
            m.stat == Told(r) && (l.stat != Told(r) ==> m.newStat)
  {
    hide Step, Read, Legible, Print, Told, Load, Possible, SevenBit, Inv;
    LoadKeeps(loaded);
    LoadIsRead(loaded);
    RunKeepsRead(Load(loaded), es);
    RunIsLink(Load(loaded), es);
    AwaitedReportIsTold(Run(Load(loaded), es), r, gap, ok);
  }

  lemma RunIsLink(l: Link, es: seq<Event>)
    requires Inv(l)
    ensures WF(Run(l, es))
  {
    hide Run;
  }
}
