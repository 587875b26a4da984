/** Reassembly of "@...*" messages from the chunks a serial line delivers. */
module PlcFraming {

  const START := '@'
  const END := '*'
  const CAPACITY := 256

  // ---------------------------------------------------------------- the driver's algorithm

  /** The bytes counted in the receive buffer, and the messages handed on so far. */
  datatype Rx = Rx(cur: string, out: seq<string>)

  function IndexOf(s: string, c: char): (i: int)
    ensures -1 <= i < |s|
    ensures i >= 0 ==> s[i] == c && c !in s[..i]
    ensures i < 0 ==> c !in s
  {
    if s == "" then -1
    else if s[0] == c then 0
    else
      var i := IndexOf(s[1..], c);
      if i < 0 then -1
      else
        assert s[..i + 1] == [s[0]] + s[1..][..i];
        i + 1
  }

  /** The byte counter wraps; what it counts is what the handler gets. */
  function Wrap(s: string): string {
    s[..|s| % CAPACITY]
  }

  lemma WrapSlice(s: string, from: nat, to: nat)
    requires from <= to <= |s|
    ensures var n := (to - from) % CAPACITY;
            n <= to - from && Wrap("" + s[from..from + n]) == Wrap(s[from..to])
  {
    var n := (to - from) % CAPACITY;
    assert "" + s[from..from + n] == s[from..to][..n];
  }

  /** What the buffer holds before a chunk's bytes up to its first end mark are appended. */
  function OverflowReset(cur: string, end: nat): string {
    if end + |cur| > CAPACITY - 1 then "" else cur
  }

  /** The buffer content that the first message or partial message of a chunk leaves. */
  function FirstContent(cur: string, chunk: string): string {
    var start, end := IndexOf(chunk, START), IndexOf(chunk, END);
    if 0 <= start < end then chunk[start..end + 1]
    else if end >= 0 then OverflowReset(cur, end) + chunk[..end + 1]
    else if start >= 0 then chunk[start..]
    else cur + chunk
  }

  function Receive(st: Rx, chunk: string): Rx
    decreases |chunk|
  {
    var end := IndexOf(chunk, END);
    var content := Wrap(FirstContent(st.cur, chunk));
    if end < 0 then Rx(content, st.out)
    else
      var next := Rx(content, st.out + [content]);
      if end < |chunk| - 1 then Receive(next, chunk[end + 1..]) else next
  }

  /** Every copy stays inside the buffer. (A whole message in one chunk is cut off by the byte counter first.) */
  predicate InBounds(st: Rx, chunk: string)
    decreases |chunk|
  {
    var start, end := IndexOf(chunk, START), IndexOf(chunk, END);
    && (0 <= start < end || |FirstContent(st.cur, chunk)| <= CAPACITY)
    && (0 <= end < |chunk| - 1 ==> var content := Wrap(FirstContent(st.cur, chunk));
                                   InBounds(Rx(content, st.out + [content]), chunk[end + 1..]))
  }

  function ReceiveAll(st: Rx, chunks: seq<string>): Rx
    decreases |chunks|
  {
    if chunks == [] then st else ReceiveAll(Receive(st, chunks[0]), chunks[1..])
  }

  // ---------------------------------------------------------------- the line discipline

  class LineDiscipline {
    var recvBuf: array<char>
    var bytesRecvd: nat
    /** Messages the handler was called with. */
    ghost var delivered: seq<string>

    ghost predicate Valid()
      reads this, recvBuf
    {
      recvBuf.Length == CAPACITY && bytesRecvd < CAPACITY
    }

    ghost function State(): Rx
      requires Valid()
      reads this, recvBuf
    {
      Rx(recvBuf[..bytesRecvd], delivered)
    }

    constructor ()
      ensures Valid() && fresh(recvBuf) && State() == Rx("", [])
    {
      recvBuf := new char[CAPACITY];
      bytesRecvd := 0;
      delivered := [];
    }

    /** First position of a character, -1 if there is none. */
    static method Find(buf: string, c: char) returns (pos: int)
      ensures pos == IndexOf(buf, c)
    {
      pos := -1;
      for i := 0 to |buf|
        invariant c !in buf[..i] && pos == -1
      {
        if buf[i] == c {
          FirstIsIndexOf(buf, c, i);
          pos := i;
          break;
        }
      }
    }

    /** memcpy behind the bytes that are kept, and the new byte count. */
    method Store(ghost kept: string, at: nat, bytes: string)
      requires Valid() && at + |bytes| <= CAPACITY && kept == recvBuf[..at]
      modifies this`bytesRecvd, recvBuf
      ensures Valid() && State() == Rx(Wrap(kept + bytes), old(State()).out)
    {
      forall i | 0 <= i < |bytes| {
        recvBuf[at + i] := bytes[i];
      }
      assert recvBuf[..at + |bytes|] == kept + bytes;
      bytesRecvd := (at + |bytes|) % CAPACITY;
      assert recvBuf[..bytesRecvd] == recvBuf[..at + |bytes|][..bytesRecvd];
    }

    method Deliver()
      requires Valid()
      modifies this`delivered
      ensures Valid() && State() == Rx(old(State()).cur, old(State()).out + [old(State()).cur])
    {
      delivered := delivered + [recvBuf[..bytesRecvd]];
    }

    /** Stores a chunk up to its first end mark. */
    method StoreFirst(buf: string, startPos: int, endPos: int)
      requires Valid() && startPos == IndexOf(buf, START) && endPos == IndexOf(buf, END)
      requires 0 <= startPos < endPos || |FirstContent(State().cur, buf)| <= CAPACITY
      modifies this`bytesRecvd, recvBuf
      ensures Valid() && State() == Rx(Wrap(FirstContent(old(State()).cur, buf)), old(State()).out)
    {
      hide Wrap;
      if 0 <= startPos < endPos {
        var n := (endPos - startPos + 1) % CAPACITY;
        WrapSlice(buf, startPos, endPos + 1);
        Store("", 0, buf[startPos..startPos + n]);
      } else if endPos >= 0 {
        if endPos + bytesRecvd > CAPACITY - 1 {
          bytesRecvd := 0;
        }
        Store(recvBuf[..bytesRecvd], bytesRecvd, buf[..endPos + 1]);
      } else if startPos >= 0 {
        assert "" + buf[startPos..] == buf[startPos..];
        Store("", 0, buf[startPos..]);
      } else {
        Store(State().cur, bytesRecvd, buf);
      }
    }

    method PlcReceive(buf: string)
      requires Valid() && InBounds(State(), buf)
      modifies this, recvBuf
      ensures Valid() && recvBuf == old(recvBuf)
      ensures State() == Receive(old(State()), buf)
      decreases |buf|
    {
      hide FirstContent, Wrap;
      var endPos := Find(buf, END);
      var startPos := Find(buf, START);
      StoreFirst(buf, startPos, endPos);
      if endPos >= 0 {
        Deliver();
        if endPos < |buf| - 1 {
          PlcReceive(buf[endPos + 1..]);
        }
      }
    }
  }

  lemma {:induction false} FirstIsIndexOf(s: string, c: char, i: nat)
    requires i < |s| && s[i] == c && c !in s[..i]
    ensures IndexOf(s, c) == i
  {
    if i > 0 {
      assert s[0] in s[..i];
      assert forall x :: x in s[1..][..i - 1] ==> x in s[..i];
      FirstIsIndexOf(s[1..], c, i - 1);
    }
  }

  // ---------------------------------------------------------------- a scanner, one character at a time

  /** A start mark empties the buffer, unless one was already seen in this chunk since the last end mark. */
  datatype Scan = Scan(cur: string, out: seq<string>, seen: bool)

  function Feed(s: Scan, c: char): Scan {
    if c == END then Scan(s.cur + [c], s.out + [s.cur + [c]], false)
    else if c == START && !s.seen then Scan([c], s.out, true)
    else Scan(s.cur + [c], s.out, s.seen)
  }

  function FeedAll(s: Scan, t: string): Scan
    decreases |t|
  {
    if t == "" then s else FeedAll(Feed(s, t[0]), t[1..])
  }

  /** No message is longer than 255 characters, and nothing else overfills the buffer: where it is just full, the
      stream ends or a start mark empties it. */
  predicate Fits(s: Scan, t: string)
    decreases |t|
  {
    |s.cur| <= CAPACITY &&
    (t == "" ||
     ((|s.cur| == CAPACITY ==> t[0] == START && !s.seen) && (t[0] == END ==> |s.cur| + 1 < CAPACITY) &&
      Fits(Feed(s, t[0]), t[1..])))
  }

  /** The driver's state where the scanner's is s: a buffer that is just full counts as empty. */
  function Driven(s: Scan): Rx {
    Rx(Wrap(s.cur), s.out)
  }

  lemma {:induction false} FeedSplits(s: Scan, a: string, b: string)
    ensures FeedAll(s, a + b) == FeedAll(FeedAll(s, a), b)
    ensures Fits(s, a + b) ==> Fits(s, a) && Fits(FeedAll(s, a), b)
    decreases |a|
  {
    if a == "" {
      assert a + b == b;
      if Fits(s, b) { assert Fits(s, a); }
    } else {
      assert (a + b)[0] == a[0] && (a + b)[1..] == a[1..] + b;
      FeedSplits(Feed(s, a[0]), a[1..], b);
    }
  }

  /** Without an end mark, a started message just grows. */
  lemma {:induction false} FeedGrows(s: Scan, t: string)
    requires END !in t && (s.seen || START !in t)
    ensures FeedAll(s, t) == Scan(s.cur + t, s.out, s.seen)
    decreases |t|
  {
    if t == "" {
      assert s.cur + t == s.cur;
    } else {
      FeedGrows(Feed(s, t[0]), t[1..]);
      assert s.cur + [t[0]] + t[1..] == s.cur + t;
    }
  }

  /** Without an end mark, the first start mark empties the buffer. */
  lemma FeedToFirstEnd(s: Scan, t: string)
    requires END !in t && !s.seen
    ensures var start := IndexOf(t, START);
            FeedAll(s, t) == if start >= 0 then Scan(t[start..], s.out, true) else Scan(s.cur + t, s.out, false)
  {
    var start := IndexOf(t, START);
    if start < 0 {
      FeedGrows(s, t);
    } else {
      var a, b := t[..start], t[start..];
      assert t == a + b;
      FeedSplits(s, a, b);
      FeedGrows(s, a);
      var u := FeedAll(s, a);
      assert b[0] == START && b == [START] + b[1..];
      FeedGrows(Feed(u, START), b[1..]);
    }
  }

  lemma WrapShort(cur: string)
    requires |cur| <= CAPACITY
    ensures Wrap(cur) == if |cur| == CAPACITY then "" else cur
  {
  }

  lemma ContentWithoutEnd(s: Scan, chunk: string)
    requires !s.seen && Fits(s, chunk) && END !in chunk
    ensures Wrap(FeedAll(s, chunk).cur) == Wrap(FirstContent(Wrap(s.cur), chunk)) && FeedAll(s, chunk).out == s.out
    ensures |FirstContent(Wrap(s.cur), chunk)| <= CAPACITY
  {
    FeedToFirstEnd(s, chunk);
    FitsAtEnd(s, chunk);
    WrapShort(s.cur);
    WrapShort(FeedAll(s, chunk).cur);
  }

  lemma ContentWithEnd(s: Scan, chunk: string, end: nat)
    requires !s.seen && Fits(s, chunk) && end == IndexOf(chunk, END)
    ensures var u := Feed(FeedAll(s, chunk[..end]), END);
            && !u.seen && u.out == s.out + [u.cur]
            && (|u.cur| < CAPACITY ==> u.cur == FirstContent(Wrap(s.cur), chunk))
  {
    var start := IndexOf(chunk, START);
    FeedToFirstEnd(s, chunk[..end]);
    StartBeforeEnd(chunk, end);
    WrapShort(s.cur);
    hide FeedAll, Wrap;
    assert chunk[..end + 1] == chunk[..end] + [END];
    if 0 <= start < end {
      assert chunk[start..end + 1] == chunk[..end][start..] + [END];
    } else {
      assert |s.cur| < CAPACITY;
      assert s.cur + chunk[..end] + [END] == s.cur + (chunk[..end] + [END]);
    }
  }

  /** The content left by a chunk's first message, as the scanner sees it. */
  lemma ContentIsFeed(s: Scan, chunk: string, end: nat)
    requires !s.seen && Fits(s, chunk) && end == IndexOf(chunk, END)
    ensures var u := FeedAll(s, chunk[..end + 1]);
            && u.cur == Wrap(FirstContent(Wrap(s.cur), chunk)) == FirstContent(Wrap(s.cur), chunk) && |u.cur| < CAPACITY
            && !u.seen && u.out == s.out + [u.cur] && Fits(u, chunk[end + 1..])
  {
    hide Fits, FeedAll, Feed, FirstContent, IndexOf;
    ContentWithEnd(s, chunk, end);
    var m := FeedAll(s, chunk[..end]);
    assert chunk == chunk[..end] + ([END] + chunk[end + 1..]);
    FeedSplits(s, chunk[..end], [END] + chunk[end + 1..]);
    FeedSplits(s, chunk[..end], [END]);
    assert chunk[..end] + [END] == chunk[..end + 1];
    EndFits(m, chunk[end + 1..]);
  }

  lemma EndFits(m: Scan, rest: string)
    requires Fits(m, [END] + rest)
    ensures FeedAll(m, [END]) == Feed(m, END) && |Feed(m, END).cur| < CAPACITY && Fits(Feed(m, END), rest)
  {
    assert ([END] + rest)[0] == END && ([END] + rest)[1..] == rest;
    assert [END][1..] == "";
  }

  lemma {:induction false} FitsAtEnd(s: Scan, t: string)
    requires Fits(s, t)
    ensures |FeedAll(s, t).cur| <= CAPACITY
    decreases |t|
  {
    if t != "" {
      FitsAtEnd(Feed(s, t[0]), t[1..]);
    }
  }

  lemma StartBeforeEnd(chunk: string, end: nat)
    requires end == IndexOf(chunk, END)
    ensures var start := IndexOf(chunk, START);
            IndexOf(chunk[..end], START) == (if start < end then start else -1)
  {
    var start := IndexOf(chunk, START);
    if 0 <= start < end {
      assert chunk[..end][..start] == chunk[..start];
      FirstIsIndexOf(chunk[..end], START, start);
    } else if start >= 0 {
      assert chunk[..end] == chunk[..start][..end];
    }
  }

  /** The driver's next state after a chunk's first message. */
  function AfterFirst(st: Rx, chunk: string): Rx {
    var content := Wrap(FirstContent(st.cur, chunk));
    Rx(content, st.out + [content])
  }

  lemma ReceiveGoesOn(st: Rx, chunk: string, end: nat)
    requires end == IndexOf(chunk, END) && |FirstContent(st.cur, chunk)| <= CAPACITY
    ensures Receive(st, chunk) ==
            if end < |chunk| - 1 then Receive(AfterFirst(st, chunk), chunk[end + 1..]) else AfterFirst(st, chunk)
    ensures (end < |chunk| - 1 ==> InBounds(AfterFirst(st, chunk), chunk[end + 1..])) ==> InBounds(st, chunk)
  {
    hide FirstContent, Wrap, IndexOf;
  }

  lemma ReceiveEnds(st: Rx, chunk: string)
    requires END !in chunk
    ensures Receive(st, chunk) == Rx(Wrap(FirstContent(st.cur, chunk)), st.out)
    ensures |FirstContent(st.cur, chunk)| <= CAPACITY ==> InBounds(st, chunk)
  {
    NoMark(chunk, END);
    hide FirstContent, Wrap, IndexOf;
  }

  lemma NoMark(t: string, c: char)
    requires c !in t
    ensures IndexOf(t, c) == -1
  {
  }

  /** On every chunk that does not overfill the buffer, the driver does what the scanner does, and stays inside it. */
  lemma {:induction false} ReceiveIsFeed(s: Scan, chunk: string)
    requires !s.seen && Fits(s, chunk)
    ensures InBounds(Driven(s), chunk)
    ensures Receive(Driven(s), chunk) == Driven(FeedAll(s, chunk))
    decreases |chunk|
  {
    hide Fits, FirstContent, Wrap, Receive, InBounds, FeedAll;
    var end := IndexOf(chunk, END);
    if end < 0 {
      ReceiveEnds(Driven(s), chunk);
      ContentWithoutEnd(s, chunk);
    } else {
      ContentIsFeed(s, chunk, end);
      var u, rest := FeedAll(s, chunk[..end + 1]), chunk[end + 1..];
      WrapShort(u.cur);
      assert AfterFirst(Driven(s), chunk) == Driven(u);
      assert chunk == chunk[..end + 1] + rest;
      FeedSplits(s, chunk[..end + 1], rest);
      ReceiveGoesOn(Driven(s), chunk, end);
      if end < |chunk| - 1 {
        ReceiveIsFeed(u, rest);
      } else {
        NothingLeft(u, rest);
      }
    }
  }

  lemma NothingLeft(s: Scan, t: string)
    requires t == ""
    ensures FeedAll(s, t) == s
  {
  }

  // ---------------------------------------------------------------- chunks do not matter

  /** No start mark between a start mark and the next end mark. */
  ghost predicate OneStart(open: bool, t: string)
    decreases |t|
  {
    t == "" ||
    if t[0] == START then !open && OneStart(true, t[1..])
    else OneStart(open && t[0] != END, t[1..])
  }

  ghost function OpenAfter(open: bool, t: string): bool
    decreases |t|
  {
    if t == "" then open else OpenAfter(t[0] == START || (open && t[0] != END), t[1..])
  }

  lemma {:induction false} OneStartSplits(open: bool, a: string, b: string)
    ensures OneStart(open, a + b) <==> OneStart(open, a) && OneStart(OpenAfter(open, a), b)
    decreases |a|
  {
    if a == "" {
      assert a + b == b;
    } else {
      assert (a + b)[0] == a[0] && (a + b)[1..] == a[1..] + b;
      OneStartSplits(a[0] == START || (open && a[0] != END), a[1..], b);
    }
  }

  /** In such a stream the scanner never looks at its flag with an effect. */
  lemma {:induction false} SeenIsIrrelevant(a: Scan, b: Scan, open: bool, t: string)
    requires a.cur == b.cur && a.out == b.out && (a.seen || b.seen ==> open) && OneStart(open, t)
    ensures var x, y := FeedAll(a, t), FeedAll(b, t);
            x.cur == y.cur && x.out == y.out && (x.seen || y.seen ==> OpenAfter(open, t))
    ensures Fits(a, t) <==> Fits(b, t)
    decreases |t|
  {
    if t != "" {
      SeenIsIrrelevant(Feed(a, t[0]), Feed(b, t[0]), t[0] == START || (open && t[0] != END), t[1..]);
    }
  }

  function Concat(chunks: seq<string>): string
    decreases |chunks|
  {
    if chunks == [] then "" else chunks[0] + Concat(chunks[1..])
  }

  predicate InBoundsAll(st: Rx, chunks: seq<string>)
    decreases |chunks|
  {
    chunks == [] || (InBounds(st, chunks[0]) && InBoundsAll(Receive(st, chunks[0]), chunks[1..]))
  }

  /** However a stream is cut into chunks, the driver ends up where the scanner ends up on the whole of it. */
  lemma {:induction false} ChunksDoNotMatter(s: Scan, open: bool, chunks: seq<string>)
    requires !s.seen && OneStart(open, Concat(chunks)) && Fits(s, Concat(chunks))
    ensures InBoundsAll(Driven(s), chunks)
    ensures ReceiveAll(Driven(s), chunks) == Driven(FeedAll(s, Concat(chunks)))
    decreases |chunks|
  {
    if chunks != [] {
      var c, rest := chunks[0], Concat(chunks[1..]);
      FeedSplits(s, c, rest);
      OneStartSplits(open, c, rest);
      ReceiveIsFeed(s, c);
      SeenIsIrrelevant(s, s, open, c);
      var u := FeedAll(s, c);
      SeenIsIrrelevant(u, u.(seen := false), OpenAfter(open, c), rest);
      ChunksDoNotMatter(u.(seen := false), OpenAfter(open, c), chunks[1..]);
    }
  }

  // ---------------------------------------------------------------- where chunks do matter

  lemma {:induction false} SeenIsOpen(s: Scan, t: string)
    requires s.seen ==> s.cur != ""
    ensures FeedAll(s, t).seen == OpenAfter(s.seen, t)
    ensures FeedAll(s, t).seen ==> FeedAll(s, t).cur != ""
    decreases |t|
  {
    if t != "" {
      SeenIsOpen(Feed(s, t[0]), t[1..]);
    }
  }

  /** The first start mark inside a message. */
  lemma {:induction false} FirstInnerStart(open: bool, t: string) returns (j: nat)
    requires !OneStart(open, t)
    ensures j < |t| && t[j] == START && OpenAfter(open, t[..j])
    ensures !open ==> j > 0
    decreases |t|
  {
    if t[0] == START && open {
      j := 0;
    } else {
      var k := FirstInnerStart(t[0] == START || (open && t[0] != END), t[1..]);
      j := k + 1;
      assert t[..j][0] == t[0] && t[..j][1..] == t[1..][..k];
    }
  }

  /** Two scanners that differ in what they delivered, or inside a message in how much they hold. */
  predicate Differ(a: Scan, b: Scan) {
    a.seen == b.seen && |a.out| == |b.out| && (a.out != b.out || (a.seen && 0 < |b.cur| < |a.cur|))
  }

  lemma FeedKeepsDiffer(a: Scan, b: Scan, c: char)
    requires Differ(a, b)
    ensures Differ(Feed(a, c), Feed(b, c))
  {
    var x, y := Feed(a, c), Feed(b, c);
    if c == END {
      assert x.out[..|a.out|] == a.out && y.out[..|b.out|] == b.out;
      assert x.out[|a.out|] == a.cur + [c] && y.out[|b.out|] == b.cur + [c];
    }
  }

  lemma {:induction false} StayDifferent(a: Scan, b: Scan, t: string)
    requires Differ(a, b)
    ensures Differ(FeedAll(a, t), FeedAll(b, t))
    decreases |t|
  {
    if t != "" {
      FeedKeepsDiffer(a, b, t[0]);
      StayDifferent(Feed(a, t[0]), Feed(b, t[0]), t[1..]);
    }
  }

  lemma {:induction false} ShorterFits(a: Scan, b: Scan, t: string)
    requires a.seen == b.seen && |b.cur| <= |a.cur| && Fits(a, t)
    ensures Fits(b, t)
    decreases |t|
  {
    if t != "" {
      ShorterFits(Feed(a, t[0]), Feed(b, t[0]), t[1..]);
    }
  }

  /** Cut before a start mark inside a message, the scanner forgets what it held of it. */
  lemma CutForgets(u: Scan, t: string)
    requires u.seen && u.cur != "" && t != "" && t[0] == START && Fits(u, t)
    ensures var v := u.(seen := false);
            && Fits(v, t)
            && Driven(FeedAll(v, t)) != Driven(FeedAll(u, t))
  {
    var v := u.(seen := false);
    var a, b := Feed(u, START), Feed(v, START);
    ShorterFits(a, b, t[1..]);
    StayDifferent(a, b, t[1..]);
    FitsAtEnd(u, t);
    FitsAtEnd(v, t);
    WrapShort(FeedAll(u, t).cur);
    WrapShort(FeedAll(v, t).cur);
  }

  lemma TwoChunks(st: Rx, a: string, b: string)
    ensures Concat([a, b]) == a + b && ReceiveAll(st, [a, b]) == Receive(Receive(st, a), b)
  {
    assert [a, b][1..] == [b] && [b][1..] == [];
    assert Concat([b]) == b;
    assert ReceiveAll(Receive(st, a), [b]) == ReceiveAll(Receive(Receive(st, a), b), []);
  }

  /** A stream with a start mark inside a message can be cut in two so that the result is another. */
  lemma CutMatters(s: Scan, t: string) returns (j: nat)
    requires !s.seen && Fits(s, t) && !OneStart(false, t)
    ensures 0 < j < |t|
    ensures ReceiveAll(Driven(s), [t[..j], t[j..]]) != Receive(Driven(s), t)
  {
    j := FirstInnerStart(false, t);
    var a, b := t[..j], t[j..];
    assert t == a + b;
    FeedSplits(s, a, b);
    SeenIsOpen(s, a);
    var u := FeedAll(s, a);
    CutForgets(u, b);
    hide FeedAll, Fits, Receive, ReceiveAll, Wrap;
    ReceiveIsFeed(s, t);
    ReceiveIsFeed(s, a);
    ReceiveIsFeed(u.(seen := false), b);
    TwoChunks(Driven(s), a, b);
  }

  /** A stream that does not overfill the buffer is received alike in all chunks exactly if no message has a second
      start mark. */
  lemma ChunksDoNotMatterExactly(s: Scan, t: string)
    requires !s.seen && Fits(s, t)
    ensures OneStart(false, t) <==>
            forall chunks: seq<string> :: Concat(chunks) == t ==> ReceiveAll(Driven(s), chunks) == Receive(Driven(s), t)
  {
    hide FeedAll, Fits, Receive, ReceiveAll, OneStart, Driven;
    ReceiveIsFeed(s, t);
    if OneStart(false, t) {
      forall chunks: seq<string> | Concat(chunks) == t
        ensures ReceiveAll(Driven(s), chunks) == Receive(Driven(s), t)
      {
        ChunksDoNotMatter(s, false, chunks);
      }
    } else {
      var j := CutMatters(s, t);
      TwoChunks(Driven(s), t[..j], t[j..]);
      assert t[..j] + t[j..] == t;
      assert Concat([t[..j], t[j..]]) == t;
    }
  }

  // ---------------------------------------------------------------- streams of messages

  /** A message body and the characters before the next message. */
  datatype Message = Message(body: string, gap: string)

  predicate Plain(t: string) {
    START !in t && END !in t
  }

  predicate PlainMessage(m: Message) {
    Plain(m.body) && Plain(m.gap)
  }

  /** A message of at most 255 characters, which with its gap just fits the buffer. */
  predicate Short(m: Message) {
    |Frame(m)| <= 255 && |Frame(m)| + |m.gap| <= 256
  }

  function Frame(m: Message): string {
    [START] + m.body + [END]
  }

  function Text(ms: seq<Message>): string
    decreases |ms|
  {
    if ms == [] then "" else Frame(ms[0]) + ms[0].gap + Text(ms[1..])
  }

  function Frames(ms: seq<Message>): seq<string>
    decreases |ms|
  {
    if ms == [] then [] else [Frame(ms[0])] + Frames(ms[1..])
  }

  lemma {:induction false} FitsJoins(s: Scan, a: string, b: string)
    requires Fits(s, a) && Fits(FeedAll(s, a), b)
    ensures Fits(s, a + b)
    decreases |a|
  {
    if a == "" {
      assert a + b == b;
    } else {
      assert (a + b)[0] == a[0] && (a + b)[1..] == a[1..] + b;
      FitsJoins(Feed(s, a[0]), a[1..], b);
    }
  }

  lemma {:induction false} FitsWhileGrowing(s: Scan, t: string, open: bool)
    requires END !in t && START !in t && |s.cur| + |t| <= CAPACITY
    ensures Fits(s, t) && OneStart(open, t) && OpenAfter(open, t) == open
    decreases |t|
  {
    if t != "" {
      FitsWhileGrowing(Feed(s, t[0]), t[1..], open);
    }
  }

  lemma FeedPlain(s: Scan, t: string, open: bool)
    requires Plain(t) && |s.cur| + |t| <= CAPACITY
    ensures FeedAll(s, t) == s.(cur := s.cur + t) && Fits(s, t)
    ensures OneStart(open, t) && OpenAfter(open, t) == open
  {
    FeedGrows(s, t);
    FitsWhileGrowing(s, t, open);
  }

  lemma FeedMark(s: Scan, c: char)
    requires |s.cur| <= CAPACITY && (|s.cur| == CAPACITY ==> c == START && !s.seen) && |Feed(s, c).cur| < CAPACITY
    ensures FeedAll(s, [c]) == Feed(s, c) && Fits(s, [c])
  {
    assert [c][1..] == "";
    assert Fits(Feed(s, c), "");
  }

  /** One message: delivered once, whatever was in the buffer before it. */
  lemma FeedMessage(s: Scan, m: Message)
    requires PlainMessage(m) && Short(m) && !s.seen && |s.cur| <= CAPACITY
    ensures FeedAll(s, Frame(m) + m.gap) == Scan(Frame(m) + m.gap, s.out + [Frame(m)], false)
    ensures Fits(s, Frame(m) + m.gap)
  {
    var s1 := Scan([START], s.out, true);
    FeedMark(s, START);
    FeedPlain(s1, m.body, true);
    FeedSplits(s, [START], m.body);
    FitsJoins(s, [START], m.body);
    var s2 := Scan([START] + m.body, s.out, true);
    FeedMark(s2, END);
    FeedSplits(s, [START] + m.body, [END]);
    FitsJoins(s, [START] + m.body, [END]);
    var s3 := Scan(Frame(m), s.out + [Frame(m)], false);
    FeedPlain(s3, m.gap, false);
    FeedSplits(s, Frame(m), m.gap);
    FitsJoins(s, Frame(m), m.gap);
  }

  lemma OpenAfterMark(open: bool, c: char)
    ensures OneStart(open, [c]) <==> !(open && c == START)
    ensures OpenAfter(open, [c]) == (c == START || (open && c != END))
  {
    var t := [c];
    assert t[1..] == "";
  }

  lemma MessageHasOneStart(m: Message)
    requires PlainMessage(m) && Short(m)
    ensures OneStart(false, Frame(m) + m.gap) && !OpenAfter(false, Frame(m) + m.gap)
  {
    var nothing := Scan("", [], false);
    FeedPlain(nothing, m.body, true);
    FeedPlain(nothing, m.gap, false);
    OpenAfterMark(false, START);
    OpenAfterMark(true, END);
    OneStartSplits(false, [START], m.body);
    OpenAfterSplits(false, [START], m.body);
    OneStartSplits(false, [START] + m.body, [END]);
    OpenAfterSplits(false, [START] + m.body, [END]);
    OneStartSplits(false, Frame(m), m.gap);
    OpenAfterSplits(false, Frame(m), m.gap);
  }

  lemma {:induction false} OpenAfterSplits(open: bool, a: string, b: string)
    ensures OpenAfter(open, a + b) == OpenAfter(OpenAfter(open, a), b)
    decreases |a|
  {
    if a == "" {
      assert a + b == b;
    } else {
      assert (a + b)[0] == a[0] && (a + b)[1..] == a[1..] + b;
      OpenAfterSplits(a[0] == START || (open && a[0] != END), a[1..], b);
    }
  }

  lemma {:induction false} FeedText(s: Scan, ms: seq<Message>)
    requires !s.seen && |s.cur| <= CAPACITY && forall m :: m in ms ==> PlainMessage(m) && Short(m)
    ensures FeedAll(s, Text(ms)).out == s.out + Frames(ms)
    ensures Fits(s, Text(ms)) && OneStart(false, Text(ms))
    decreases |ms|
  {
    if ms == [] {
      assert s.out + Frames(ms) == s.out;
    } else {
      var m, head, rest := ms[0], Frame(ms[0]) + ms[0].gap, Text(ms[1..]);
      FeedMessage(s, m);
      var u := FeedAll(s, head);
      FeedText(u, ms[1..]);
      assert Text(ms) == head + rest;
      FeedSplits(s, head, rest);
      FitsJoins(s, head, rest);
      MessageHasOneStart(m);
      OneStartSplits(false, head, rest);
      assert s.out + [Frame(m)] + Frames(ms[1..]) == s.out + Frames(ms);
    }
  }

  /** A stream of messages, cut into chunks in any way and received after any earlier traffic,
      is delivered exactly: every message, in order, once, and nothing else. */
  lemma StreamIsDelivered(st: Rx, lead: string, ms: seq<Message>, chunks: seq<string>)
    requires Concat(chunks) == lead + Text(ms) && |st.cur| < CAPACITY && Plain(lead) && |st.cur| + |lead| <= CAPACITY
    requires forall m :: m in ms ==> PlainMessage(m) && Short(m)
    ensures InBoundsAll(st, chunks)
    ensures ReceiveAll(st, chunks).out == st.out + Frames(ms)
  {
    var s := Scan(st.cur, st.out, false);
    WrapShort(st.cur);
    FeedPlain(s, lead, false);
    var u := FeedAll(s, lead);
    FeedText(u, ms);
    FeedSplits(s, lead, Text(ms));
    FitsJoins(s, lead, Text(ms));
    OneStartSplits(false, lead, Text(ms));
    ChunksDoNotMatter(s, false, chunks);
  }

  // ---------------------------------------------------------------- which streams are delivered

  /** Characters without a mark stay inside the buffer exactly if there is room for them. */
  lemma GapStaysInside(st: Rx, gap: string)
    requires Plain(gap)
    ensures InBounds(st, gap) <==> |st.cur| + |gap| <= 256
    ensures Receive(st, gap) == Rx(Wrap(st.cur + gap), st.out)
  {
    NoMark(gap, START);
    NoMark(gap, END);
    hide IndexOf, Wrap;
  }

  /** What a message in a chunk of its own is received as: all of it, exactly if it has at most 255 characters. */
  lemma FrameIsReceived(st: Rx, m: Message)
    requires Plain(m.body)
    ensures Receive(st, Frame(m)) == Rx(Wrap(Frame(m)), st.out + [Wrap(Frame(m))])
    ensures Receive(st, Frame(m)).out == st.out + [Frame(m)] <==> |Frame(m)| <= 255
  {
    hide IndexOf;
    var text := Frame(m);
    FirstIsIndexOf(text, START, 0);
    assert text[..|m.body| + 1] == [START] + m.body;
    FirstIsIndexOf(text, END, |m.body| + 1);
    assert FirstContent(st.cur, text) == text[0..|text|] == text;
    assert (st.out + [Wrap(text)])[|st.out|] == Wrap(text) && (st.out + [text])[|st.out|] == text;
    assert |Wrap(text)| < CAPACITY;
  }

  /** A longer message loses a multiple of 256 characters at its end, or all of it. */
  lemma LongMessageIsCut(st: Rx, m: Message)
    requires Plain(m.body) && |Frame(m)| >= 256
    ensures var got := Receive(st, Frame(m)).out;
            |got| == |st.out| + 1 && got[|st.out|] == Frame(m)[..|Frame(m)| % 256] != Frame(m)
  {
    FrameIsReceived(st, m);
    assert |Wrap(Frame(m))| < CAPACITY;
    hide Receive;
  }

  /** The stream with every message and every gap in a chunk of its own. */
  function Pieces(ms: seq<Message>): seq<string>
    decreases |ms|
  {
    if ms == [] then [] else [Frame(ms[0]), ms[0].gap] + Pieces(ms[1..])
  }

  lemma {:induction false} PiecesAreText(ms: seq<Message>)
    ensures Concat(Pieces(ms)) == Text(ms)
    decreases |ms|
  {
    if ms != [] {
      var rest := Pieces(ms[1..]);
      PiecesAreText(ms[1..]);
      assert ([Frame(ms[0]), ms[0].gap] + rest)[1..] == [ms[0].gap] + rest && ([ms[0].gap] + rest)[1..] == rest;
      assert Frame(ms[0]) + (ms[0].gap + Text(ms[1..])) == Text(ms);
    }
  }

  /** What was delivered stays delivered. */
  lemma {:induction false} ReceiveExtends(st: Rx, chunk: string)
    ensures st.out <= Receive(st, chunk).out
    decreases |chunk|
  {
    hide FirstContent, Wrap;
    var end := IndexOf(chunk, END);
    if 0 <= end < |chunk| - 1 {
      var content := Wrap(FirstContent(st.cur, chunk));
      ReceiveExtends(Rx(content, st.out + [content]), chunk[end + 1..]);
    }
  }

  lemma {:induction false} ReceiveAllExtends(st: Rx, chunks: seq<string>)
    ensures st.out <= ReceiveAll(st, chunks).out
    decreases |chunks|
  {
    if chunks != [] {
      ReceiveExtends(st, chunks[0]);
      ReceiveAllExtends(Receive(st, chunks[0]), chunks[1..]);
    }
  }

  lemma PieceByPiece(st: Rx, m: Message, rest: seq<string>)
    requires PlainMessage(m)
    ensures var u := Receive(st, Frame(m)); var v := Receive(u, m.gap);
            && ReceiveAll(st, [Frame(m), m.gap] + rest) == ReceiveAll(v, rest)
            && (InBoundsAll(st, [Frame(m), m.gap] + rest) ==> InBounds(u, m.gap) && InBoundsAll(v, rest))
            && u == Rx(Wrap(Frame(m)), st.out + [Wrap(Frame(m))]) && v.out == u.out
  {
    FrameIsReceived(st, m);
    GapStaysInside(Receive(st, Frame(m)), m.gap);
    hide Receive, InBounds, Wrap;
    var all := [Frame(m), m.gap] + rest;
    var later := [m.gap] + rest;
    assert all[0] == Frame(m) && all[1..] == later && later[0] == m.gap && later[1..] == rest;
    var u := Receive(st, Frame(m));
    assert ReceiveAll(u, later) == ReceiveAll(Receive(u, m.gap), rest);
    assert InBoundsAll(st, all) ==> InBoundsAll(u, later);
    assert InBoundsAll(u, later) ==> InBounds(u, m.gap) && InBoundsAll(Receive(u, m.gap), rest);
  }

  /** Piece by piece, the stream is delivered only if all its messages are short. */
  lemma {:induction false} PiecesNeedRoom(st: Rx, ms: seq<Message>)
    requires (forall m :: m in ms ==> PlainMessage(m))
    requires InBoundsAll(st, Pieces(ms)) && ReceiveAll(st, Pieces(ms)).out == st.out + Frames(ms)
    ensures forall m :: m in ms ==> Short(m)
    decreases |ms|
  {
    if ms != [] {
      var m, rest := ms[0], Pieces(ms[1..]);
      assert m in ms;
      PieceByPiece(st, m, rest);
      var u := Receive(st, Frame(m));
      var v := Receive(u, m.gap);
      ReceiveAllExtends(v, rest);
      FirstDelivered(v.out, ReceiveAll(v, rest).out, st.out, Wrap(Frame(m)), Frame(m), Frames(ms[1..]));
      FrameIsReceived(st, m);
      GapStaysInside(u, m.gap);
      hide Receive, InBounds, InBoundsAll, ReceiveAll, Wrap, Pieces;
      PiecesNeedRoom(v, ms[1..]);
      assert forall x :: x in ms ==> x == m || x in ms[1..];
    }
  }

  lemma FirstDelivered(before: seq<string>, after: seq<string>, out: seq<string>, got: string,
                       frame: string, frames: seq<string>)
    requires before == out + [got] && before <= after && after == out + ([frame] + frames)
    ensures got == frame && after == before + frames
  {
    assert after[|out|] == frame && before[|out|] == got;
  }

  /** The room that a stream needs: for what is held before its first message, and for every message with its gap. */
  predicate HasRoom(st: Rx, lead: string, ms: seq<Message>) {
    |st.cur| + |lead| <= 256 && forall m :: m in ms ==> Short(m)
  }

  /** All chunks of a stream stay inside the buffer, and deliver exactly its messages. */
  ghost predicate AlwaysDelivered(st: Rx, lead: string, ms: seq<Message>) {
    forall chunks: seq<string> :: Concat(chunks) == lead + Text(ms) ==>
      InBoundsAll(st, chunks) && ReceiveAll(st, chunks).out == st.out + Frames(ms)
  }

  /** Main result: a stream is delivered in all chunks, without a copy leaving the buffer,
      exactly if it has that room. */
  lemma StreamIsDeliveredExactly(st: Rx, lead: string, ms: seq<Message>)
    requires |st.cur| < CAPACITY && Plain(lead) && forall m :: m in ms ==> PlainMessage(m)
    ensures AlwaysDelivered(st, lead, ms) <==> HasRoom(st, lead, ms)
  {
    if HasRoom(st, lead, ms) {
      forall chunks: seq<string> | Concat(chunks) == lead + Text(ms)
        ensures InBoundsAll(st, chunks) && ReceiveAll(st, chunks).out == st.out + Frames(ms)
      {
        StreamIsDelivered(st, lead, ms, chunks);
      }
    }
    if AlwaysDelivered(st, lead, ms) {
      var chunks := [lead] + Pieces(ms);
      PiecesAreText(ms);
      assert chunks[1..] == Pieces(ms);
      assert Concat(chunks) == lead + Text(ms);
      GapStaysInside(st, lead);
      hide Receive, InBounds, Wrap;
      PiecesNeedRoom(Receive(st, lead), ms);
    }
  }

  /** The code does not always stay inside its buffer: 257 characters without a mark overrun it. */
  lemma GapMayOverrun()
    ensures var gap: string := seq(CAPACITY + 1, _ => 'a');
            Plain(gap) && !InBounds(Rx("", []), gap)
  {
    var gap: string := seq(CAPACITY + 1, _ => 'a');
    GapStaysInside(Rx("", []), gap);
  }

  lemma WholeMessage(text: string, end: nat, st: Rx)
    requires end + 1 == |text| < CAPACITY && text[0] == START && text[end] == END && END !in text[..end] && end > 0
    ensures Receive(st, text) == Rx(text, st.out + [text])
  {
    hide IndexOf;
    FirstIsIndexOf(text, START, 0);
    FirstIsIndexOf(text, END, end);
    assert text[0..end + 1] == text;
    assert Wrap(text) == text;
  }

  /** Two start marks are where chunks do matter: in one chunk the first one counts, in two the second. */
  lemma ChunksMatterForDoubleStart()
    ensures ReceiveAll(Rx("", []), ["@a@b*"]).out == ["@a@b*"]
    ensures ReceiveAll(Rx("", []), ["@a", "@b*"]).out == ["@b*"]
  {
    WholeMessage("@a@b*", 4, Rx("", []));
    assert ["@a@b*"][1..] == [];
    var first := Receive(Rx("", []), "@a");
    assert IndexOf("@a", END) == -1 && first == Rx("@a", []);
    WholeMessage("@b*", 2, first);
    var second := Receive(first, "@b*");
    assert ["@a", "@b*"][1..] == ["@b*"] && ["@b*"][1..] == [];
    assert ReceiveAll(first, ["@b*"]) == ReceiveAll(second, []);
  }
}
