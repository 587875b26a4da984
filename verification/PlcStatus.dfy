/** The PLC's status string and its incremental decoding. */
module PlcStatus {
  import opened PlcCommand

  const STAT_LEN := 79

  /** Characters that are decoded together, and the status fields decoded from them. */
  datatype Group = DomePos | DropoutDoor | ShutterDoor | DomeStat | AperStat | FiltStat | AcqMir | InstrShutt
                 | Focus | FocStat | CritErr | Eht | HandsetKeys | AperNum | FiltNum

  /** Positions are numbers, codes are single bytes; flags are trapdoor open and dome moving, PMT shutter open,
      and power failure and watchdog trip. */
  datatype Value = Number(n: int) | Code(c: bv8) | Flags(a: bool, b: bool)

  /** The decoded status: the value of every group. */
  type Status = map<Group, Value>

  function First(g: Group): nat {
    match g
    case DomePos => 7
    case DropoutDoor => 12
    case ShutterDoor => 13
    case DomeStat => 14
    case AperStat => 15
    case FiltStat => 16
    case AcqMir => 17
    case InstrShutt => 18
    case Focus => 19
    case FocStat => 25
    case CritErr => 27
    case Eht => 28
    case HandsetKeys => 29
    case AperNum => 32
    case FiltNum => 34
  }

  function Size(g: Group): nat {
    match g
    case DomePos => 4
    case Focus => 4
    case FocStat => 2
    case HandsetKeys => 2
    case _ => 1
  }

  lemma GroupsAreApart(g: Group, h: Group)
    ensures 0 < Size(g) && First(g) + Size(g) <= STAT_LEN
    ensures g != h ==> First(g) + Size(g) <= First(h) || First(h) + Size(h) <= First(g)
  {
  }

  function Chars(g: Group, s: Text): (cs: Text)
    requires |s| >= STAT_LEN
    ensures |cs| == Size(g)
  {
    GroupsAreApart(g, g);
    s[First(g)..First(g) + Size(g)]
  }

  /** A character as the signed number C calculates with. */
  function Signed(c: bv8): int {
    if c < 0x80 then c as int else c as int - 256
  }

  function Digit(c: bv8): int {
    Signed(c) - 48
  }

  function Unsigned16(n: int): int {
    n % 65536
  }

  function DecodeGroup(g: Group, cs: Text): Value
    requires |cs| == Size(g)
  {
    match g
    case DomePos =>
      var n := Digit(cs[0]) * 1000 + Digit(cs[1]) * 100 + Digit(cs[2]) * 10 + Digit(cs[3]);
      Number(Unsigned16(3599 - Unsigned16(n)))
    case Focus =>
      var n := Digit(cs[1]) * 100 + Digit(cs[2]) * 10 + Digit(cs[3]);
      Number(if cs[0] == 0x38 then -n else n)
    case DomeStat => Flags(HexVal(cs[0]) & 0x1 != 0, HexVal(cs[0]) & 0x2 != 0)
    case InstrShutt => Flags(HexVal(cs[0]) & 0x1 != 0, false)
    case CritErr => Flags(HexVal(cs[0]) & 0x4 != 0, HexVal(cs[0]) & 0x8 != 0)
    case FocStat => Code((HexVal(cs[0]) << 4) | HexVal(cs[1]))
    case HandsetKeys => Code(HexVal(cs[0]) | (HexVal(cs[1]) << 4))
    case AperNum => Code(cs[0] - 0x30)
    case FiltNum => Code(cs[0] - 0x30)
    case _ => Code(HexVal(cs[0]))
  }

  /** Decoding a string from scratch. */
  function Decode(s: Text): Status
    requires |s| >= STAT_LEN
  {
    map g: Group | true :: DecodeGroup(g, Chars(g, s))
  }

  const NO_STATUS: Status := map g: Group | true ::
    if g in {DomePos, Focus} then Number(0)
    else if g in {DomeStat, InstrShutt, CritErr} then Flags(false, false) else Code(0)

  function HandsetOf(st: Status): bv8 {
    if HandsetKeys in st && st[HandsetKeys].Code? then st[HandsetKeys].c else 0
  }

  // ---------------------------------------------------------------- the driver's decoder

  /** What one status string changes: the status, the characters it was decoded from, whether anything changed,
      the command string, whether a door command was withdrawn, and the calls of the handset handler. */
  datatype Parsed = Parsed(stat: Status, chars: Text, changed: bool, cmd: Text, withdrawn: bool,
                           handset: seq<(bv8, bv8)>)

  predicate Wide(p: Parsed) {
    |p.chars| >= STAT_LEN && IsCmd(p.cmd)
  }

  /** A door that has reached the commanded end: the command is withdrawn. */
  predicate DoorReached(reported: bv8, ordered: bv8) {
    (reported & DOOR_OPEN != 0 && ordered & DOOR_OPEN != 0) ||
    (reported & DOOR_CLOSE != 0 && ordered & DOOR_CLOSE != 0)
  }

  function Withdraw(p: Parsed, at: nat, reported: bv8): (q: Parsed)
    requires Wide(p) && at < CMD_LEN
    ensures Wide(q) && q == p.(cmd := q.cmd, withdrawn := q.withdrawn)
  {
    if DoorReached(reported, Nibble(p.cmd, at)) then p.(cmd := p.cmd[at := ZERO], withdrawn := true) else p
  }

  function SideEffect(g: Group, p: Parsed, v: Value): (q: Parsed)
    requires Wide(p)
    ensures Wide(q) && q == p.(cmd := q.cmd, withdrawn := q.withdrawn, handset := q.handset)
  {
    if !v.Code? then p
    else if g == DropoutDoor then Withdraw(p, DROPOUT, v.c)
    else if g == ShutterDoor then Withdraw(p, SHUTTER, v.c)
    else if g == HandsetKeys then p.(handset := p.handset + [(HandsetOf(p.stat), v.c)])
    else p
  }

  /** A group is decoded only if one of its characters differs from the last string. */
  function ParseGroup(g: Group, p: Parsed, s: Text): (q: Parsed)
    requires Wide(p) && |s| >= STAT_LEN
    ensures Wide(q) && |q.chars| == |p.chars|
  {
    if Chars(g, p.chars) == Chars(g, s) then p
    else
      GroupsAreApart(g, g);
      var v := DecodeGroup(g, Chars(g, s));
      SideEffect(g, p, v).(stat := p.stat[g := v], chars := Put(p.chars, First(g), Chars(g, s)), changed := true)
  }

  function ParseGroups(gs: seq<Group>, p: Parsed, s: Text): (q: Parsed)
    requires Wide(p) && |s| >= STAT_LEN
    ensures Wide(q) && |q.chars| == |p.chars|
  {
    if gs == [] then p else ParseGroups(gs[1..], ParseGroup(gs[0], p, s), s)
  }

  /** The order of the tests in the driver. */
  const GROUPS: seq<Group> := [DomePos, DropoutDoor, ShutterDoor, DomeStat, AperStat, FiltStat, AcqMir, InstrShutt,
                               Focus, FocStat, CritErr, Eht, HandsetKeys, AperNum, FiltNum]

  /** Parsing from the k-th group on. */
  function ParseFrom(k: nat, p: Parsed, s: Text): (q: Parsed)
    requires Wide(p) && |s| >= STAT_LEN
  {
    if k <= |GROUPS| then ParseGroups(GROUPS[k..], p, s) else p
  }

  lemma ParseFromSteps(k: nat, p: Parsed, s: Text)
    requires Wide(p) && |s| >= STAT_LEN && k < |GROUPS|
    ensures ParseFrom(k, p, s) == ParseFrom(k + 1, ParseGroup(GROUPS[k], p, s), s)
  {
    assert GROUPS[k..][0] == GROUPS[k] && GROUPS[k..][1..] == GROUPS[k + 1..];
  }

  lemma ParseFromEnds(p: Parsed, s: Text)
    requires Wide(p) && |s| >= STAT_LEN
    ensures ParseFrom(0, p, s) == ParseGroups(GROUPS, p, s)
    ensures ParseFrom(15, p, s) == p
  {
    assert GROUPS[0..] == GROUPS && GROUPS[15..] == [];
  }

  function Parse(p: Parsed, s: Text): (q: Parsed)
    requires Wide(p) && |s| >= STAT_LEN
    ensures Wide(q) && |q.chars| == |p.chars|
  {
    ParseGroups(GROUPS, p.(changed := false, withdrawn := false), s)
  }

  // ---------------------------------------------------------------- one group

  predicate NoNul(s: Text)
    requires |s| >= STAT_LEN
  {
    forall g: Group :: Chars(g, s)[0] != 0
  }

  /** Either nothing was decoded yet, or the value is what the characters say. */
  predicate Synced(g: Group, p: Parsed)
    requires Wide(p)
  {
    g in p.stat && (Chars(g, p.chars)[0] == 0 || p.stat[g] == DecodeGroup(g, Chars(g, p.chars)))
  }

  /** The value and the characters are those of s. */
  predicate Taken(g: Group, p: Parsed, s: Text)
    requires Wide(p) && |s| >= STAT_LEN
  {
    g in p.stat && Chars(g, p.chars) == Chars(g, s) && p.stat[g] == DecodeGroup(g, Chars(g, s))
  }

  lemma PutApart(s: Text, at: nat, bytes: Text, lo: nat, hi: nat)
    requires at + |bytes| <= |s| && lo <= hi <= |s|
    ensures hi <= at || at + |bytes| <= lo ==> Put(s, at, bytes)[lo..hi] == s[lo..hi]
    ensures lo == at && hi == at + |bytes| ==> Put(s, at, bytes)[lo..hi] == bytes
  {
  }

  lemma CharsAfterPut(g: Group, h: Group, chars: Text, cs: Text)
    requires |chars| >= STAT_LEN && |cs| == Size(g)
    ensures First(g) + Size(g) <= STAT_LEN
    ensures Chars(h, Put(chars, First(g), cs)) == if g == h then cs else Chars(h, chars)
  {
    GroupsAreApart(g, h);
    GroupsAreApart(h, h);
    PutApart(chars, First(g), cs, First(h), First(h) + Size(h));
  }

  /** A decoded group is as the string says; the others keep their characters and values. */
  lemma ParseGroupEffect(g: Group, h: Group, p: Parsed, s: Text)
    requires Wide(p) && |s| >= STAT_LEN && Synced(g, p) && Chars(g, s)[0] != 0
    ensures var q := ParseGroup(g, p, s);
            && Taken(g, q, s)
            && (q.changed <==> p.changed || Chars(g, p.chars) != Chars(g, s))
            && (g != h ==> Chars(h, q.chars) == Chars(h, p.chars) && (h in q.stat <==> h in p.stat) &&
                           (h in p.stat ==> q.stat[h] == p.stat[h]))
  {
    CharsAfterPut(g, g, p.chars, Chars(g, s));
    CharsAfterPut(g, h, p.chars, Chars(g, s));
  }

  // ---------------------------------------------------------------- all groups

  ghost predicate AllSynced(p: Parsed)
    requires Wide(p)
  {
    forall g: Group :: Synced(g, p)
  }

  function Rank(g: Group): nat {
    match g
    case DomePos => 0
    case DropoutDoor => 1
    case ShutterDoor => 2
    case DomeStat => 3
    case AperStat => 4
    case FiltStat => 5
    case AcqMir => 6
    case InstrShutt => 7
    case Focus => 8
    case FocStat => 9
    case CritErr => 10
    case Eht => 11
    case HandsetKeys => 12
    case AperNum => 13
    case FiltNum => 14
  }

  /** A stretch of the list of groups. */
  ghost predicate Listed(gs: seq<Group>, from: nat) {
    forall i :: 0 <= i < |gs| ==> Rank(gs[i]) == from + i
  }

  lemma GroupsAreListed()
    ensures Listed(GROUPS, 0)
  {
    hide Rank;
    forall i | 0 <= i < |GROUPS| ensures Rank(GROUPS[i]) == i {
      RankOfEntry(i);
    }
  }

  lemma RankOfEntry(i: nat)
    requires i < |GROUPS|
    ensures Rank(GROUPS[i]) == i
  {
  }

  lemma EveryGroupIsListed(g: Group)
    ensures Rank(g) < |GROUPS| && GROUPS[Rank(g)] == g && g in GROUPS
  {
    assert GROUPS[Rank(g)] == g;
  }

  lemma {:induction false} ParseGroupsEffect(gs: seq<Group>, from: nat, p: Parsed, s: Text, h: Group)
    requires Wide(p) && |s| >= STAT_LEN && AllSynced(p) && NoNul(s) && Listed(gs, from) && Synced(h, p)
    ensures var q := ParseGroups(gs, p, s);
            && (h in gs ==> Taken(h, q, s))
            && (h !in gs ==> Chars(h, q.chars) == Chars(h, p.chars) && h in q.stat && q.stat[h] == p.stat[h])
    ensures p.changed ==> ParseGroups(gs, p, s).changed
    ensures !ParseGroups(gs, p, s).changed ==> h in gs ==> Chars(h, p.chars) == Chars(h, s)
    decreases |gs|
  {
    if gs != [] {
      hide Rank, ParseGroup, Synced, Taken;
      var g, q := gs[0], ParseGroup(gs[0], p, s);
      SyncedAfterGroup(g, p, s);
      StepOverGroup(g, h, p, s);
      assert Rank(g) == from;
      ParseGroupsEffect(gs[1..], from + 1, q, s, h);
    }
  }

  lemma StepOverGroup(g: Group, h: Group, p: Parsed, s: Text)
    requires Wide(p) && |s| >= STAT_LEN && AllSynced(p) && NoNul(s)
    ensures var q := ParseGroup(g, p, s);
            && Synced(h, q)
            && (g == h ==> Taken(h, q, s))
            && (q.changed <==> p.changed || Chars(g, p.chars) != Chars(g, s))
            && (g != h ==> Chars(h, q.chars) == Chars(h, p.chars)
                           && h in q.stat && h in p.stat && q.stat[h] == p.stat[h])
            && h in q.stat
            && (Taken(h, q, s) <==> Chars(h, q.chars) == Chars(h, s) && q.stat[h] == DecodeGroup(h, Chars(h, s)))
  {
    hide DecodeGroup, ParseGroup, Chars;
    assert Chars(g, s)[0] != 0 && Synced(g, p) && Synced(h, p);
    ParseGroupEffect(g, h, p, s);
    SyncedAfterGroup(g, p, s);
  }

  lemma SyncedAfterGroup(g: Group, p: Parsed, s: Text)
    requires Wide(p) && |s| >= STAT_LEN && AllSynced(p) && NoNul(s)
    ensures AllSynced(ParseGroup(g, p, s))
  {
    assert Chars(g, s)[0] != 0 && Synced(g, p);
    forall h: Group ensures Synced(h, ParseGroup(g, p, s)) {
      assert Synced(h, p);
      ParseGroupEffect(g, h, p, s);
    }
  }

  lemma {:induction false} ChangedMeansDifferent(gs: seq<Group>, from: nat, p: Parsed, s: Text) returns (g: Group)
    requires Wide(p) && |s| >= STAT_LEN && AllSynced(p) && NoNul(s) && Listed(gs, from)
    requires !p.changed && ParseGroups(gs, p, s).changed
    ensures g in gs && Chars(g, p.chars) != Chars(g, s)
    decreases |gs|
  {
    g := gs[0];
    if Chars(g, p.chars) == Chars(g, s) {
      g := ChangedMeansDifferent(gs[1..], from + 1, p, s);
    }
  }

  /** After an accepted string the status is a full decode of it, whatever was decoded before;
      the driver reports a change exactly if some decoded character changed. */
  lemma ParseIsDecode(p: Parsed, s: Text)
    requires Wide(p) && |s| >= STAT_LEN && AllSynced(p) && NoNul(s)
    ensures Parse(p, s).stat == Decode(s)
    ensures AllSynced(Parse(p, s))
    ensures Parse(p, s).changed <==> exists g: Group :: Chars(g, p.chars) != Chars(g, s)
  {
    var p0 := p.(changed := false, withdrawn := false);
    var q := Parse(p, s);
    GroupsAreListed();
    assert AllSynced(p0) by {
      forall g: Group ensures Synced(g, p0) { assert Synced(g, p); }
    }
    forall g: Group
      ensures Taken(g, q, s) && (!q.changed ==> Chars(g, p.chars) == Chars(g, s))
    {
      EveryGroupIsListed(g);
      assert Synced(g, p0);
      ParseGroupsEffect(GROUPS, 0, p0, s, g);
    }
    assert q.stat.Keys == Decode(s).Keys by {
      forall g: Group ensures g in q.stat { assert Taken(g, q, s); }
    }
    assert forall g: Group :: Taken(g, q, s) ==> Synced(g, q);
    if q.changed {
      var g := ChangedMeansDifferent(GROUPS, 0, p0, s);
    }
  }

  // ---------------------------------------------------------------- any number of strings

  /** The state before the first status: nothing decoded, all characters NUL. */
  function Fresh(cmd: Text): (p: Parsed)
    requires IsCmd(cmd)
    ensures Wide(p)
  {
    Parsed(NO_STATUS, seq(STAT_LEN + 1, _ => 0), false, cmd, false, [])
  }

  function ParseAll(p: Parsed, ss: seq<Text>): (q: Parsed)
    requires Wide(p) && forall s :: s in ss ==> |s| >= STAT_LEN
    ensures Wide(q)
    decreases |ss|
  {
    if ss == [] then p else ParseAll(Parse(p, ss[0]), ss[1..])
  }

  lemma FreshIsSynced(cmd: Text)
    requires IsCmd(cmd)
    ensures AllSynced(Fresh(cmd))
  {
    forall g: Group ensures Synced(g, Fresh(cmd)) {
      GroupsAreApart(g, g);
      assert Chars(g, Fresh(cmd).chars)[0] == Fresh(cmd).chars[First(g)];
    }
  }

  /** Incremental decoding refines full decoding: after any sequence of strings the status is what
      decoding the last one alone gives. */
  lemma {:induction false} IncrementalIsFull(p: Parsed, ss: seq<Text>)
    requires Wide(p) && AllSynced(p) && |ss| > 0
    requires forall s :: s in ss ==> |s| >= STAT_LEN && NoNul(s)
    ensures ParseAll(p, ss).stat == Decode(ss[|ss| - 1]) && AllSynced(ParseAll(p, ss))
    decreases |ss|
  {
    ParseIsDecode(p, ss[0]);
    if |ss| > 1 {
      IncrementalIsFull(Parse(p, ss[0]), ss[1..]);
    } else {
      assert ParseAll(Parse(p, ss[0]), ss[1..]) == Parse(p, ss[0]);
    }
  }

  // ---------------------------------------------------------------- the handset

  /** Every call of the handset handler starts from the keys the last call ended with. */
  ghost predicate Chained(log: seq<(bv8, bv8)>, last: bv8) {
    && (forall i :: 0 < i < |log| ==> log[i].0 == log[i - 1].1)
    && (if log == [] then last == 0 else log[0].0 == 0 && log[|log| - 1].1 == last)
  }

  lemma ChainGrows(log: seq<(bv8, bv8)>, last: bv8, next: bv8)
    requires Chained(log, last)
    ensures Chained(log + [(last, next)], next)
  {
  }

  lemma HandsetCall(g: Group, p: Parsed, s: Text)
    requires Wide(p) && |s| >= STAT_LEN
    ensures var q := ParseGroup(g, p, s);
            if g == HandsetKeys && Chars(g, p.chars) != Chars(g, s)
            then q.handset == p.handset + [(HandsetOf(p.stat), HandsetOf(q.stat))]
            else q.handset == p.handset && HandsetOf(q.stat) == HandsetOf(p.stat)
  {
    hide Put, Withdraw, HexVal;
  }

  lemma GroupKeepsChain(g: Group, p: Parsed, s: Text)
    requires Wide(p) && |s| >= STAT_LEN && Chained(p.handset, HandsetOf(p.stat))
    ensures var q := ParseGroup(g, p, s);
            Chained(q.handset, HandsetOf(q.stat))
  {
    hide Chained, ParseGroup, HandsetOf;
    HandsetCall(g, p, s);
    ChainGrows(p.handset, HandsetOf(p.stat), HandsetOf(ParseGroup(g, p, s).stat));
  }

  lemma {:induction false} GroupsKeepChain(gs: seq<Group>, p: Parsed, s: Text)
    requires Wide(p) && |s| >= STAT_LEN && Chained(p.handset, HandsetOf(p.stat))
    ensures var q := ParseGroups(gs, p, s);
            Chained(q.handset, HandsetOf(q.stat))
    decreases |gs|
  {
    if gs != [] {
      GroupKeepsChain(gs[0], p, s);
      hide Chained, HandsetOf, ParseGroup;
      GroupsKeepChain(gs[1..], ParseGroup(gs[0], p, s), s);
    }
  }

  lemma {:induction false} HandsetCallsChain(p: Parsed, ss: seq<Text>)
    requires Wide(p) && Chained(p.handset, HandsetOf(p.stat))
    requires forall s :: s in ss ==> |s| >= STAT_LEN
    ensures Chained(ParseAll(p, ss).handset, HandsetOf(ParseAll(p, ss).stat))
    decreases |ss|
  {
    if ss != [] {
      GroupsKeepChain(GROUPS, p.(changed := false, withdrawn := false), ss[0]);
      HandsetCallsChain(Parse(p, ss[0]), ss[1..]);
    }
  }
}
