/** What holds in every reachable state of the PLC link, and what becomes of one-shot commands. */
module PlcSafety {
  import opened PlcCommand
  import opened PlcStatus
  import opened PlcProtocol

  // ---------------------------------------------------------------- requests and one-shots

  predicate Overrides(r: Request, o: OneShot) {
    o.FocusOrder? && r.FocusMove? && r.value != 0
  }

  lemma FieldOps(n: bv8)
    requires n <= 15
    ensures HexVal(HexChar(WHEEL_GO | (n & 0x8))) <= 15 && HexChar(WHEEL_GO | (n & 0x8)) != ZERO
    ensures HexVal(HexChar(0x1 | (n & 0x8))) <= 15 && HexChar(0x1 | (n & 0x8)) != ZERO
    ensures HexVal(HexChar(0x4 | (n & 0x8))) <= 15 && HexChar(0x4 | (n & 0x8)) != ZERO
    ensures HexVal(HexChar((n & 0x3) | 0x8)) <= 15 && HexVal(HexChar((n & 0x3) | 0x4)) <= 15
            && HexVal(HexChar((n & 0x3) | 0)) <= 15
    ensures HexVal(HexChar((n & 0xC) | 0x1)) <= 15 && HexVal(HexChar((n & 0xC) | 0x2)) <= 15
            && HexVal(HexChar((n & 0xC) | 0)) <= 15
    ensures HexVal(HexChar(n & 0x3)) <= 15
  {
  }

  /** The only things a request does to the characters of the wheels, the focus and the mirror. */
  lemma WheelCharsAfterRequest(cmd: Text, r: Request)
    requires IsCmd(cmd)
    ensures var u, f := Apply(cmd, r), Nibble(cmd, APER_STAT) & 0x8;
            && (u[APER_STAT] == cmd[APER_STAT] || u[APER_STAT] == HexChar(WHEEL_GO | f) ||
                u[APER_STAT] == HexChar(0x1 | f) || u[APER_STAT] == HexChar(0x4 | f))
            && (u[FILT_STAT] == cmd[FILT_STAT] || u[FILT_STAT] in {HexChar(WHEEL_GO), HexChar(0x1), HexChar(0x4)})
  {
    OrWithZero();
    hide HexChar, HexVal, AzimuthDigits, FocusDigits;
  }

  lemma OrWithZero()
    ensures WHEEL_GO | 0 == WHEEL_GO && (0x1 as bv8) | 0 == 0x1 && (0x4 as bv8) | 0 == 0x4
  {
  }

  lemma WheelsAfterRequest(cmd: Text, r: Request)
    requires IsCmd(cmd) && HexFields(cmd)
    ensures var u := Apply(cmd, r);
            && HexAt(u, APER_STAT) && HexAt(u, FILT_STAT)
            && (cmd[APER_STAT] != ZERO ==> u[APER_STAT] != ZERO)
            && (cmd[FILT_STAT] != ZERO ==> u[FILT_STAT] != ZERO)
  {
    WheelCharsAfterRequest(cmd, r);
    FieldOps(Nibble(cmd, APER_STAT));
    hide Apply;
  }

  lemma FocusCharAfterRequest(cmd: Text, r: Request)
    requires IsCmd(cmd)
    ensures var u := Apply(cmd, r);
            && u[0] == cmd[0]
            && (u[FOCUS] == cmd[FOCUS] || u[FOCUS] in {HexChar(FOC_RESET), HexChar(FOC_GO)} ||
                (Overrides(r, FocusOrder) && u[FOCUS] in {HexChar(0x4), HexChar(0x2)}))
  {
    hide HexChar, HexVal, AzimuthDigits, FocusDigits, Keeping;
  }

  lemma MirrorCharAfterRequest(cmd: Text, r: Request)
    requires IsCmd(cmd)
    ensures var u, m := Apply(cmd, r), Nibble(cmd, MIRROR_EHT);
            || u[MIRROR_EHT] == cmd[MIRROR_EHT]
            || u[MIRROR_EHT] in {HexChar((m & 0x3) | 0x8), HexChar((m & 0x3) | 0x4), HexChar((m & 0x3) | 0),
                                    HexChar(m & 0x3)}
            || u[MIRROR_EHT] in {HexChar((m & 0xC) | 0x1), HexChar((m & 0xC) | 0x2), HexChar((m & 0xC) | 0)}
  {
    hide HexChar, HexVal, AzimuthDigits, FocusDigits, Keeping;
  }

  lemma FocusAfterRequest(cmd: Text, r: Request)
    requires IsCmd(cmd) && HexFields(cmd)
    ensures var u := Apply(cmd, r);
            && HexAt(u, FOCUS) && HexAt(u, MIRROR_EHT) && u[0] == cmd[0]
            && (Ordered(cmd, FocusOrder) && !Overrides(r, FocusOrder) ==> Ordered(u, FocusOrder))
  {
    FocusCharAfterRequest(cmd, r);
    MirrorCharAfterRequest(cmd, r);
    FieldOps(Nibble(cmd, MIRROR_EHT));
    hide Apply;
  }

  /** A request never withdraws a one-shot, except that a focus movement replaces a focus order. */
  lemma RequestsKeepOrders(cmd: Text, r: Request, o: OneShot)
    requires IsCmd(cmd) && HexFields(cmd)
    ensures HexFields(Apply(cmd, r)) && Initialised(Apply(cmd, r)) == Initialised(cmd)
    ensures Ordered(cmd, o) && !Overrides(r, o) ==> Ordered(Apply(cmd, r), o)
  {
    RequestsKeepResets(cmd, r);
    WheelsAfterRequest(cmd, r);
    FocusAfterRequest(cmd, r);
  }

  lemma RequestsDoNotInitialise(cmd: Text, r: Request)
    requires IsCmd(cmd)
    ensures Initialised(Apply(cmd, r)) == Initialised(cmd)
  {
    hide HexChar, HexVal, AzimuthDigits, FocusDigits;
  }

  // ---------------------------------------------------------------- the invariant

  lemma SendCmdKeeps(l: Link, ok: bool)
    requires Inv(l)
    ensures Inv(SendCmd(l, ok))
    ensures l.await == Nothing ==> Inv(SendCmd(l, ok).(pending := false))
  {
    StampKeepsFields(l.cmd);
  }

  lemma OrderKeeps(l: Link, r: Request, ok: bool)
    requires Inv(l)
    ensures Inv(Order(l, r, ok))
    ensures Alive(l) ==> Alive(Order(l, r, ok))
  {
    RequestsDoNotInitialise(l.cmd, r);
    if Initialised(l.cmd) {
      RequestsKeepOrders(l.cmd, r, WatchdogReset);
    }
    var m := l.(cmd := Apply(l.cmd, r));
    if l.await == Nothing {
      assert Inv(m);
      SendCmdKeeps(m, ok);
    }
  }

  lemma ClearingKeepsFields(cmd: Text)
    requires IsCmd(cmd)
    ensures Initialised(ClearOneShots(cmd)) == Initialised(cmd)
    ensures HexFields(cmd) ==> HexFields(ClearOneShots(cmd))
  {
    assert ClearOneShots(cmd)[0] == cmd[0];
    if HexFields(cmd) {
      ClearOneShotsClears(cmd);
    }
  }

  lemma EnsureInitKeeps(l: Link)
    requires WF(l) && (Initialised(l.cmd) ==> HexFields(l.cmd))
    ensures var m := EnsureInit(l);
            Initialised(m.cmd) && HexFields(m.cmd) && m == l.(cmd := m.cmd)
  {
    InitOrdersNothing(l.chars);
  }

  lemma TakeStatRespKeeps(l: Link, buf: Text)
    requires WF(l) && (Initialised(l.cmd) ==> HexFields(l.cmd))
    ensures var m := TakeStatResp(l, buf).0;
            && (Initialised(m.cmd) ==> HexFields(m.cmd))
            && m == l.(stat := m.stat, chars := m.chars, cmd := m.cmd, handset := m.handset, pending := m.pending)
  {
    if ValidStatResp(buf) {
      ParsedKeepsFields(l, buf);
    }
  }

  lemma TakeKeeps(l: Link, buf: Text)
    requires Inv(l)
    ensures var m := Take(l, buf).0;
            Inv(m.(await := Nothing, timerArmed := false)) && m.pollQueued == l.pollQueued
  {
    hide HexFields, Initialised, TakeStatResp, EnsureInit;
    match l.await
    case CmdResp =>
      ClearingKeepsFields(l.cmd);
    case StatResp =>
      TakeStatRespKeeps(l, buf);
      EnsureInitKeeps(TakeStatResp(l, buf).0);
    case Nothing =>
  }

  /** The one write that is not repeated: a held-back command whose write fails when it is flushed. */
  predicate FlushFails(l: Link, buf: Text, ok: bool)
    requires WF(l)
  {
    Complete(buf) && Take(l, buf).1 != Bad && Take(l, buf).0.pending && !ok
  }

  /** A response leaves the link alive unless it flushed a command in vain with no poll queued. */
  lemma RespondKeeps(l: Link, buf: Text, ok: bool)
    requires Inv(l)
    ensures Inv(Respond(l, buf, ok))
    ensures Alive(l) ==> (Alive(Respond(l, buf, ok)) <==> !(FlushFails(l, buf, ok) && !l.pollQueued))
  {
    if Complete(buf) {
      TakeKeeps(l, buf);
      var (m, v) := Take(l, buf);
      var n := m.(await := Nothing, timerArmed := false);
      if v != Bad {
        hide Take;
        var x := n.(commOk := true, newStat := n.newStat || v == Change);
        assert Inv(x);
        SendCmdKeeps(x, ok);
      }
    }
  }

  lemma StepKeeps(l: Link, e: Event)
    requires Inv(l)
    ensures Inv(Step(l, e))
  {
    match e
    case OrderEvent(r, ok) => OrderKeeps(l, r, ok);
    case ResponseEvent(buf, ok) => RespondKeeps(l, buf, ok);
    case _ =>
  }

  /** The exact condition under which a live link stays alive. */
  lemma StepKeepsAlive(l: Link, e: Event)
    requires Inv(l) && Alive(l)
    ensures Alive(Step(l, e)) <==> !(e.ResponseEvent? && FlushFails(l, e.buf, e.ok) && !l.pollQueued)
  {
    match e
    case OrderEvent(r, ok) => OrderKeeps(l, r, ok);
    case ResponseEvent(buf, ok) => RespondKeeps(l, buf, ok);
    case _ =>
  }

  // ---------------------------------------------------------------- runs

  function Run(l: Link, es: seq<Event>): (m: Link)
    requires Inv(l)
    ensures Inv(m)
    decreases |es|
  {
    if es == [] then l
    else
      StepKeeps(l, es[0]);
      Run(Step(l, es[0]), es[1..])
  }

  /** The failure that StepKeepsAlive names does not occur. */
  ghost predicate NeverStalls(l: Link, es: seq<Event>)
    requires Inv(l)
    decreases |es|
  {
    es == [] ||
    (StepKeeps(l, es[0]);
     !(es[0].ResponseEvent? && FlushFails(l, es[0].buf, es[0].ok) && !l.pollQueued) &&
     NeverStalls(Step(l, es[0]), es[1..]))
  }

  ghost predicate AliveThroughout(l: Link, es: seq<Event>)
    requires Inv(l)
    decreases |es|
  {
    Alive(l) && (es == [] || (StepKeeps(l, es[0]); AliveThroughout(Step(l, es[0]), es[1..])))
  }

  /** From loading on: a request is written only when none is awaited, and a response is awaited
      exactly while the response timer is armed. */
  lemma OneRequestAtATime(loaded: bool, es: seq<Event>)
    ensures Inv(Load(loaded))
    ensures var l := Run(Load(loaded), es);
            l.collisions == 0 && (l.await != Nothing <==> l.timerArmed)
  {
    LoadKeeps(loaded);
  }

  /** Over every run, in all its states a response is awaited or a status poll is queued, exactly if no flush fails
      its write while no poll is queued. */
  lemma {:induction false} LinkStaysAliveExactly(l: Link, es: seq<Event>)
    requires Inv(l) && Alive(l)
    ensures AliveThroughout(l, es) <==> NeverStalls(l, es)
    decreases |es|
  {
    if es != [] {
      StepKeeps(l, es[0]);
      StepKeepsAlive(l, es[0]);
      if Alive(Step(l, es[0])) {
        LinkStaysAliveExactly(Step(l, es[0]), es[1..]);
      }
    }
  }

  lemma {:induction false} AliveAtTheEnd(l: Link, es: seq<Event>)
    requires Inv(l) && AliveThroughout(l, es)
    ensures Alive(Run(l, es))
    decreases |es|
  {
    if es != [] {
      StepKeeps(l, es[0]);
      AliveAtTheEnd(Step(l, es[0]), es[1..]);
    }
  }

  /** From loading on. */
  lemma LinkStaysAlive(loaded: bool, es: seq<Event>)
    ensures Inv(Load(loaded))
    ensures NeverStalls(Load(loaded), es) ==> Alive(Run(Load(loaded), es))
  {
    LoadKeeps(loaded);
    LinkStaysAliveExactly(Load(loaded), es);
    if NeverStalls(Load(loaded), es) {
      AliveAtTheEnd(Load(loaded), es);
    }
  }

  /** A failed flush with no poll queued silences the link: the order is no longer held back, and neither
      a poll nor a timeout is left to revive it. */
  lemma FailedFlushStalls(l: Link, buf: Text, ok: bool)
    requires Inv(l) && Alive(l) && FlushFails(l, buf, ok) && !l.pollQueued
    ensures var m := Respond(l, buf, ok);
            && Inv(m) && !Alive(m) && !m.pending
            && Step(m, PollEvent(true)) == m && Step(m, TimeoutEvent) == m && !Alive(Step(m, ReadEvent))
  {
    RespondKeeps(l, buf, ok);
  }

  lemma OrderIsHeldBack(r: Request)
    ensures var m := Order(Load(true), r, true);
            Inv(m) && Alive(m) && m.await == StatResp && m.pending && !m.pollQueued
  {
    LoadKeeps(true);
    OrderKeeps(Load(true), r, true);
    hide Apply, Inv;
  }

  lemma HeldBackFlushFails(l: Link, buf: Text)
    requires WF(l) && l.await == StatResp && l.pending && Complete(buf) && ValidStatResp(buf)
    ensures FlushFails(l, buf, false)
  {
    hide Complete, ValidStatResp, ParsedBy, EnsureInit;
    EnsureInitKeepsPending(TakeStatResp(l, buf).0);
  }

  lemma EnsureInitKeepsPending(l: Link)
    requires WF(l)
    ensures EnsureInit(l).pending == l.pending
  {
    hide InitCmd;
  }

  /** Any response with a sound check sequence will do. */
  lemma ResponseStalls(r: Request, buf: Text)
    requires Complete(buf) && ValidStatResp(buf)
    ensures Inv(Load(true))
    ensures var m := Step(Load(true), OrderEvent(r, true));
            Inv(m) && Alive(m) && !Alive(Step(m, ResponseEvent(buf, false)))
  {
    hide Load, Order, Respond, FlushFails, Inv, Alive, Complete, ValidStatResp;
    LoadKeeps(true);
    var m := Order(Load(true), r, true);
    OrderIsHeldBack(r);
    HeldBackFlushFails(m, buf);
    FailedFlushStalls(m, buf, false);
  }

  function Zeros(n: nat): (r: Text)
    ensures |r| == n && forall i :: 0 <= i < n ==> r[i] == ZERO
  {
    seq(n, _ => ZERO)
  }

  /** A status response with nothing but zeros to report. */
  function QuietResponse(): (r: Text)
    ensures |r| == STAT_LEN - 1
  {
    STAT_RESP + Zeros(70) + [0x35, 0x36, STAR]
  }

  lemma {:induction false} ZerosCancel(s: Text, n: nat)
    ensures Fcs(s + Zeros(2 * n)) == Fcs(s)
    decreases n
  {
    if n == 0 {
      assert s + Zeros(0) == s;
    } else {
      var t := s + Zeros(2 * n - 2);
      assert (s + Zeros(2 * n))[..|s| + 2 * n - 1] == t + [ZERO];
      assert (t + [ZERO])[..|t|] == t;
      ZerosCancel(s, n - 1);
      XorTwice(Fcs(t), ZERO);
    }
  }

  lemma XorTwice(a: bv8, b: bv8)
    ensures a ^ b ^ b == a
  {
  }

  lemma FcsAppend(s: Text, c: bv8)
    ensures Fcs(s + [c]) == Fcs(s) ^ c
  {
    assert (s + [c])[..|s|] == s;
  }

  lemma HeaderFcs()
    ensures Fcs(STAT_RESP) == 0x56
  {
    FcsAppend([], 0x40);
    FcsAppend([0x40], 0x30);
    FcsAppend([0x40, 0x30], 0x30);
    FcsAppend([0x40, 0x30, 0x30], 0x52);
    FcsAppend([0x40, 0x30, 0x30, 0x52], 0x44);
    assert [] + [0x40 as bv8] == [0x40] && [0x40 as bv8] + [0x30] == [0x40, 0x30];
    assert [0x40 as bv8, 0x30] + [0x30] == [0x40, 0x30, 0x30]
           && [0x40 as bv8, 0x30, 0x30] + [0x52] == [0x40, 0x30, 0x30, 0x52];
    assert [0x40 as bv8, 0x30, 0x30, 0x52] + [0x44] == STAT_RESP;
    hide Fcs;
    assert Fcs([]) == 0 by { NoFcs(); }
  }

  lemma NoFcs()
    ensures Fcs([]) == 0
  {
  }

  lemma QuietResponseIsValid()
    ensures Complete(QuietResponse()) && ValidStatResp(QuietResponse())
  {
    var r := QuietResponse();
    HeaderFcs();
    ZerosCancel(STAT_RESP, 35);
    assert r[..75] == STAT_RESP + Zeros(70);
    assert r[..5] == STAT_RESP;
    assert r[75] == 0x35 && r[76] == 0x36 && r[5] == ZERO && r[6] == ZERO;
    hide Fcs, QuietResponse;
  }

  /** It happens: an order given while the first status is awaited, and a failed write when that arrives. */
  lemma StallIsReachable(r: Request)
    ensures Inv(Load(true))
    ensures var m := Step(Load(true), OrderEvent(r, true));
            Inv(m) && Alive(m) && !Alive(Step(m, ResponseEvent(QuietResponse(), false)))
  {
    hide Load, Order, Respond, Inv, Alive, QuietResponse;
    QuietResponseIsValid();
    ResponseStalls(r, QuietResponse());
  }

  // ---------------------------------------------------------------- one-shot commands

  /** A valid response to a command, with nothing held back: the one-shots are withdrawn. */
  predicate Acknowledges(l: Link, e: Event) {
    e.ResponseEvent? && Complete(e.buf) && l.await == CmdResp && ValidCmdResp(e.buf) && !l.pending
  }

  lemma RespondKeepsOrders(l: Link, buf: Text, ok: bool, o: OneShot)
    requires Inv(l) && Initialised(l.cmd) && Ordered(l.cmd, o)
    ensures Initialised(Respond(l, buf, ok).cmd)
    ensures !Acknowledges(l, ResponseEvent(buf, ok)) ==> Ordered(Respond(l, buf, ok).cmd, o)
  {
    hide Take, Ordered, Initialised, Stamp, Complete, ValidCmdResp;
    if Complete(buf) {
      TakeKeepsOrders(l, buf, o);
      StampKeepsFields(Take(l, buf).0.cmd);
    }
  }

  lemma TakeKeepsOrders(l: Link, buf: Text, o: OneShot)
    requires Inv(l) && Initialised(l.cmd) && Ordered(l.cmd, o)
    ensures Initialised(Take(l, buf).0.cmd)
    ensures !(l.await == CmdResp && ValidCmdResp(buf) && !l.pending) ==> Ordered(Take(l, buf).0.cmd, o)
  {
    if l.await == StatResp && ValidStatResp(buf) {
      ParsedKeepsFields(l, buf);
    }
    if l.await == CmdResp {
      assert ClearOneShots(l.cmd)[0] == l.cmd[0];
    }
  }

  /** A one-shot disappears only when it was part of the command last written and that command is acknowledged,
      or when a request replaces it. */
  lemma OneShotLeavesOnlyWhenWritten(l: Link, e: Event, o: OneShot)
    requires Inv(l) && Initialised(l.cmd) && Ordered(l.cmd, o)
    ensures Initialised(Step(l, e).cmd)
    ensures !Ordered(Step(l, e).cmd, o) ==>
              (Acknowledges(l, e) && Ordered(l.written, o)) || (e.OrderEvent? && Overrides(e.request, o))
  {
    match e
    case OrderEvent(r, ok) =>
      RequestsKeepOrders(l.cmd, r, o);
      StampKeepsFields(Apply(l.cmd, r));
    case ResponseEvent(buf, ok) => RespondKeepsOrders(l, buf, ok, o);
    case _ =>
  }

  /** Somewhere in the run a command that contained the one-shot was acknowledged, or a request replaced it. */
  ghost predicate Settled(l: Link, es: seq<Event>, o: OneShot)
    requires Inv(l)
    decreases |es|
  {
    es != [] &&
    ((Acknowledges(l, es[0]) && Ordered(l.written, o)) || (es[0].OrderEvent? && Overrides(es[0].request, o)) ||
     (StepKeeps(l, es[0]); Settled(Step(l, es[0]), es[1..], o)))
  }

  /** Over every interleaving of orders, polls, timeouts, responses and failed writes: a one-shot that was
      ordered is still ordered, or a command containing it was written and acknowledged, or it was replaced. */
  lemma {:induction false} OneShotsAreNotLost(l: Link, es: seq<Event>, o: OneShot)
    requires Inv(l) && Initialised(l.cmd) && Ordered(l.cmd, o)
    ensures Ordered(Run(l, es).cmd, o) || Settled(l, es, o)
    decreases |es|
  {
    if es != [] {
      StepKeeps(l, es[0]);
      OneShotLeavesOnlyWhenWritten(l, es[0], o);
      if Ordered(Step(l, es[0]).cmd, o) {
        OneShotsAreNotLost(Step(l, es[0]), es[1..], o);
      }
    }
  }

  /** An acknowledged command takes all its one-shots with it: none is sent twice. */
  lemma AcknowledgedOneShotsAreGone(l: Link, e: Event, o: OneShot)
    requires Inv(l) && Initialised(l.cmd) && Acknowledges(l, e)
    ensures !Ordered(Step(l, e).cmd, o)
  {
    ClearOneShotsClears(l.cmd);
    StampKeepsFields(ClearOneShots(l.cmd));
  }
}
