// The overflow flag over whole runs: what it always tells, and when it does not depend on how the bytes
// were split over the calls.

module Overflow {
  import opened Basics
  import opened Text
  import opened Streams
  import opened Framing

  /** The last non-empty line of a list, or the empty one. */
  function LastOf(lines: seq<string>): string {
    if lines == [] then ""
    else if lines[|lines| - 1] != "" then lines[|lines| - 1]
    else LastOf(lines[..|lines| - 1])
  }

  /** The last completed non-empty line of a history. */
  function Last(h: string): string {
    LastOf(Lines(h))
  }

  lemma LastSnoc(h: string, c: char)
    ensures Last(h + [c]) == if IsBreak(c) && Unfinished(h) != "" then Unfinished(h) else Last(h)
  {
    LinesSnoc(h, c);
    if IsBreak(c) {
      var lines := Lines(h) + [Unfinished(h)];
      assert lines[..|lines| - 1] == Lines(h);
    }
  }

  /** The current line or the last completed one is longer than the buffer. */
  predicate TooLong(cap: nat, h: string) {
    |Unfinished(h)| > cap || |Last(h)| > cap
  }

  // ---------- One receive loop ----------

  /** What the bytes dropped by a receive loop tell about the lines. */
  ghost predicate Told(cap: nat, h: string, used: string, r: Received) {
    if r.ready then
      && cap > 0 && Unfinished(h + used) == ""
      && (|Last(h + used)| > cap <==> |Unfinished(h)| > cap || r.dropped > 0)
    else
      && (|Unfinished(h + used)| > cap ==> |Unfinished(h)| > cap || r.dropped > 0)
      && (TooLong(cap, h + used) <==> TooLong(cap, h) || r.dropped > 0)
  }

  /** One byte at the front that completes no message. */
  lemma ToldCons(cap: nat, h: string, c: char, used: string, r: Received, r': Received)
    requires var buf := Cut(Unfinished(h), cap);
      && !(IsBreak(c) && buf != "")
      && r'.ready == r.ready
      && r'.dropped == r.dropped + if !IsBreak(c) && |buf| >= cap then 1 else 0
    requires Told(cap, h + [c], used, r)
    ensures Told(cap, h, [c] + used, r')
  {
    LinesSnoc(h, c);
    LastSnoc(h, c);
    Assoc(h, [c], used);
  }

  /** A line break behind a non-empty buffer completes the line. */
  lemma ToldBreak(cap: nat, h: string, c: char, r: Received)
    requires IsBreak(c) && Cut(Unfinished(h), cap) != "" && r.ready && r.dropped == 0
    ensures Told(cap, h, [c], r)
  {
    LinesSnoc(h, c);
    LastSnoc(h, c);
  }

  lemma ReceiveDrops(cap: nat, buf: string, input: string)
    requires input != "" && !(IsBreak(input[0]) && buf != "")
    ensures Receive(TextLine, cap, buf, input).dropped ==
      Receive(TextLine, cap, Stored(cap, buf, input[0]), input[1..]).dropped
      + if !IsBreak(input[0]) && |buf| >= cap then 1 else 0
  {}

  lemma {:induction false} DropsTell(cap: nat, h: string, buf: string, input: string, used: string)
    requires buf == Cut(Unfinished(h), cap)
    requires input == used + Receive(TextLine, cap, buf, input).rest
    ensures Told(cap, h, used, Receive(TextLine, cap, buf, input))
    decreases |input|
  {
    var r := Receive(TextLine, cap, buf, input);
    if input == "" {
      NilUnit(h);
      return;
    }
    var c, rest := input[0], input[1..];
    if IsBreak(c) && buf != "" {
      assert used == [c];
      ToldBreak(cap, h, c, r);
    } else {
      BufferSnoc(cap, h, c);
      BytesAccounted(TextLine, cap, buf, input);
      ReceiveCons(cap, buf, input);
      ReceiveDrops(cap, buf, input);
      UsedTail(input, used, r.rest);
      var next := Receive(TextLine, cap, Stored(cap, buf, c), rest);
      DropsTell(cap, h + [c], Stored(cap, buf, c), rest, used[1..]);
      ToldCons(cap, h, c, used[1..], next, r);
      assert [c] + used[1..] == used;
    }
  }

  lemma UsedTail(input: string, used: string, rest: string)
    requires input == used + rest && input != "" && |rest| < |input|
    ensures used != "" && used[0] == input[0] && input[1..] == used[1..] + rest
  {}

  // ---------- Whole runs ----------

  /** No poll finds the overflow bit set by the driver itself. */
  ghost predicate Unreported(ops: seq<Op>) {
    forall i :: 0 <= i < |ops| && ops[i].Poll? ==> !ops[i].hw.overflow
  }

  /** What the flag tells after the bytes `h`, in any run. */
  ghost predicate Tells(cap: nat, h: string, flag: bool) {
    && (|Unfinished(h)| > cap ==> flag)
    && (flag ==> TooLong(cap, h))
    && (cap == 0 && TooLong(cap, h) ==> flag)
  }

  /** The flag after a poll, and the bytes it consumed. */
  lemma PollFlag<W(!new)>(port: Port, s: State<W>, listener: Listener<W>, op: Op, h: string)
      returns (used: string, r: Received)
    requires port.canRead && port.mode.TextLine? && Consumed(port, s, h)
    requires op.Poll? && !op.hw.overflow && OnlyWrites(listener)
    ensures var s' := Step(port, s, listener, op).state;
      && s.inbox == used + s'.inbox && Consumed(port, s', h + used)
      && Told(port.cap, h, used, r) && (!r.ready ==> s'.inbox == "") && (s.inbox == "" ==> !r.ready)
      && (s.inbox != "" ==> |s'.inbox| < |s.inbox|)
      && (s'.link.status.overflow <==> r.dropped > 0 || (!r.ready && s.link.status.overflow))
  {
    r := Receive(TextLine, port.cap, s.buf, s.inbox);
    used := PollFrames(port, s, listener, op, h);
    BytesAccounted(TextLine, port.cap, s.buf, s.inbox);
    DropsTell(port.cap, h, s.buf, s.inbox, used);
    OverflowBit(port, s.(link := s.link.(hw := op.hw)), listener);
  }

  lemma PollTells<W(!new)>(port: Port, s: State<W>, listener: Listener<W>, op: Op, h: string) returns (used: string)
    requires port.canRead && port.mode.TextLine? && Consumed(port, s, h)
    requires op.Poll? && !op.hw.overflow && OnlyWrites(listener) && Tells(port.cap, h, s.link.status.overflow)
    ensures var s' := Step(port, s, listener, op).state;
      && s.inbox == used + s'.inbox && Consumed(port, s', h + used)
      && Tells(port.cap, h + used, s'.link.status.overflow)
  {
    var r;
    used, r := PollFlag(port, s, listener, op, h);
  }

  /** In every run the flag is set while the current line is too long, and set only if the current or the
      last completed line is. */
  lemma {:induction false} RunTells<W(!new)>(port: Port, s: State<W>, listener: Listener<W>, ops: seq<Op>, h: string)
      returns (used: string)
    requires port.canRead && port.mode.TextLine? && Consumed(port, s, h)
    requires Unreported(ops) && OnlyWrites(listener) && Tells(port.cap, h, s.link.status.overflow)
    ensures var s' := Run(port, s, listener, ops);
      && s.inbox + History(ops) == used + s'.inbox
      && Consumed(port, s', h + used)
      && Tells(port.cap, h + used, s'.link.status.overflow)
    decreases |ops|
  {
    if ops == [] {
      used := "";
      NilUnit(s.inbox);
      NilUnit(h);
      return;
    }
    var s', rest := Step(port, s, listener, ops[0]).state, History(ops[1..]);
    if ops[0].Arrive? {
      used := RunTells(port, s', listener, ops[1..], h);
      Assoc(s.inbox, ops[0].bytes, rest);
    } else {
      var first := PollTells(port, s, listener, ops[0], h);
      var later := RunTells(port, s', listener, ops[1..], h + first);
      used := first + later;
      NilUnit(rest);
      Assoc(first, s'.inbox, rest);
      Assoc(first, later, Run(port, s, listener, ops).inbox);
      Assoc(h, first, later);
    }
  }

  /** Nothing received, nothing to read, the flag clear. */
  ghost predicate Fresh<W>(s: State<W>) {
    s.buf == "" && s.inbox == "" && !s.link.status.overflow
  }

  /** The run receives exactly the bytes `h` and leaves none unread. */
  ghost predicate Drains<W>(port: Port, s: State<W>, listener: Listener<W>, ops: seq<Op>, h: string) {
    History(ops) == h && Unreported(ops) && Run(port, s, listener, ops).inbox == ""
  }

  ghost predicate Flag<W>(port: Port, s: State<W>, listener: Listener<W>, ops: seq<Op>) {
    Run(port, s, listener, ops).link.status.overflow
  }

  lemma DrainedTells<W(!new)>(port: Port, s: State<W>, listener: Listener<W>, ops: seq<Op>, h: string)
    requires port.canRead && port.mode.TextLine? && Fresh(s) && OnlyWrites(listener)
    requires Drains(port, s, listener, ops, h)
    ensures Tells(port.cap, h, Flag(port, s, listener, ops)) && Consumed(port, Run(port, s, listener, ops), h)
  {
    var used := RunTells(port, s, listener, ops, "");
    NilUnit(h);
    NilUnit(used);
  }

  // ---------- The run that reads everything as it comes ----------

  function Polls(n: nat): (r: seq<Op>)
    ensures |r| == n && forall i :: 0 <= i < n ==> r[i] == Poll(CLEAN)
  {
    if n == 0 then [] else [Poll(CLEAN)] + Polls(n - 1)
  }

  /** All bytes at once, and a poll for each. */
  function AtOnce(h: string): seq<Op> {
    [Arrive(h)] + Polls(|h|)
  }

  lemma AtOnceDrains<W>(port: Port, s: State<W>, listener: Listener<W>, h: string)
    requires port.canRead && s.inbox == ""
    ensures Drains(port, s, listener, AtOnce(h), h)
  {
    assert [Arrive(h)][1..] == [];
    NilUnit(h);
    EnoughPolls(port, s, listener, [Arrive(h)], Polls(|h|));
  }

  /** The flag tells all after the bytes `h`, and only between two lines is anything left to read. */
  ghost predicate Eager<W>(port: Port, s: State<W>, h: string) {
    && Consumed(port, s, h) && (s.inbox != "" ==> Unfinished(h) == "")
    && s.link.status.overflow == TooLong(port.cap, h)
  }

  lemma EagerPoll<W(!new)>(port: Port, s: State<W>, listener: Listener<W>, h: string) returns (used: string)
    requires port.canRead && port.mode.TextLine? && OnlyWrites(listener) && Eager(port, s, h)
    ensures var s' := Step(port, s, listener, Poll(CLEAN)).state;
      && s.inbox == used + s'.inbox && Eager(port, s', h + used) && (s.inbox != "" ==> |s'.inbox| < |s.inbox|)
  {
    var r;
    used, r := PollFlag(port, s, listener, Poll(CLEAN), h);
  }

  /** Polling without new arrivals keeps it so to the end. */
  lemma {:induction false} EagerPolls<W(!new)>(port: Port, s: State<W>, listener: Listener<W>, n: nat, h: string)
    requires port.canRead && port.mode.TextLine? && OnlyWrites(listener) && Eager(port, s, h) && |s.inbox| <= n
    ensures Flag(port, s, listener, Polls(n)) == TooLong(port.cap, h + s.inbox)
    decreases n
  {
    if n == 0 {
      NilUnit(h);
      return;
    }
    var s' := Step(port, s, listener, Poll(CLEAN)).state;
    var used := EagerPoll(port, s, listener, h);
    EagerPolls(port, s', listener, n - 1, h + used);
    Assoc(h, used, s'.inbox);
    RunCons(port, s, listener, Poll(CLEAN), Polls(n - 1));
  }

  lemma AtOnceFlag<W(!new)>(port: Port, s: State<W>, listener: Listener<W>, h: string)
    requires port.canRead && port.mode.TextLine? && Fresh(s) && OnlyWrites(listener)
    ensures Flag(port, s, listener, AtOnce(h)) == TooLong(port.cap, h)
  {
    NilUnit(h);
    EagerPolls(port, s.(inbox := h), listener, |h|, "");
    RunCons(port, s, listener, Arrive(h), Polls(|h|));
  }

  // ---------- The run that pauses before the last line ends ----------

  /** The break that ends the last non-empty line. */
  lemma {:induction false} SplitAtLast(h: string) returns (a: string, c: char, t: string)
    requires Last(h) != ""
    ensures IsBreak(c) && h == a + ([c] + t)
    ensures Unfinished(a) == Last(h) && Last(t) == "" && Unfinished(t) == Unfinished(h)
    decreases |h|
  {
    var g, x := h[..|h| - 1], h[|h| - 1];
    assert h == g + [x];
    LastSnoc(g, x);
    LinesSnoc(g, x);
    if IsBreak(x) && Unfinished(g) != "" {
      a, c, t := g, x, "";
      NilUnit([x]);
    } else {
      var t';
      a, c, t' := SplitAtLast(g);
      t := t' + [x];
      LastSnoc(t', x);
      LinesSnoc(t', x);
      Assoc(a, [c] + t', [x]);
      Assoc([c], t', [x]);
    }
  }

  /** The bytes before a break, all read; then the break; then the rest. */
  function Paused(a: string, c: char, t: string): seq<Op> {
    AtOnce(a) + ([Arrive([c]), Poll(CLEAN)] + AtOnce(t))
  }

  /** A break behind a non-empty buffer, read on its own, leaves the stream fresh. */
  lemma BreakAlone<W(!new)>(port: Port, s: State<W>, listener: Listener<W>, c: char)
    requires port.canRead && port.mode.TextLine? && OnlyWrites(listener)
    requires s.buf != "" && s.inbox == "" && IsBreak(c)
    ensures Fresh(Run(port, s, listener, [Arrive([c]), Poll(CLEAN)]))
  {
    var s1 := s.(inbox := "" + [c], link := s.link.(hw := CLEAN));
    assert Receive(TextLine, port.cap, s.buf, [c]) == Received(s.buf, "", true, 0, 0, 1);
    OverflowBit(port, s1, listener);
    RunCons(port, s, listener, Arrive([c]), [Poll(CLEAN)]);
    RunCons(port, s.(inbox := "" + [c]), listener, Poll(CLEAN), []);
    assert [Arrive([c])] + [Poll(CLEAN)] == [Arrive([c]), Poll(CLEAN)] && [Poll(CLEAN)] + [] == [Poll(CLEAN)];
  }

  lemma PausedFlag<W(!new)>(port: Port, s: State<W>, listener: Listener<W>, a: string, c: char, t: string)
    requires port.canRead && port.mode.TextLine? && Fresh(s) && OnlyWrites(listener)
    requires port.cap > 0 && Unfinished(a) != "" && IsBreak(c) && Last(t) == "" && |Unfinished(t)| <= port.cap
    ensures Drains(port, s, listener, Paused(a, c, t), a + ([c] + t)) && !Flag(port, s, listener, Paused(a, c, t))
  {
    var s1 := Run(port, s, listener, AtOnce(a));
    AtOnceDrains(port, s, listener, a);
    DrainedTells(port, s, listener, AtOnce(a), a);
    var mid := [Arrive([c]), Poll(CLEAN)];
    BreakAlone(port, s1, listener, c);
    var s2 := Run(port, s1, listener, mid);
    AtOnceDrains(port, s2, listener, t);
    DrainedTells(port, s2, listener, AtOnce(t), t);
    RunAppend(port, s, listener, AtOnce(a), mid + AtOnce(t));
    RunAppend(port, s1, listener, mid, AtOnce(t));
    BreakHistory(c);
  }

  lemma BreakHistory(c: char)
    ensures History([Arrive([c]), Poll(CLEAN)]) == [c]
  {
    var polls := [Poll(CLEAN)];
    assert [Arrive([c]), Poll(CLEAN)][1..] == polls;
    PollsAddNothing(polls);
    NilUnit([c]);
  }

  // ---------- When the flag depends on the bytes only ----------

  /** The flag does not depend on the fragmentation of `h`. */
  ghost predicate FlagIndependent<W>(port: Port, s: State<W>, listener: Listener<W>, h: string) {
    forall a: seq<Op>, b: seq<Op> :: Drains(port, s, listener, a, h) && Drains(port, s, listener, b, h) ==>
      Flag(port, s, listener, a) == Flag(port, s, listener, b)
  }

  /** All runs that receive the bytes `h` end with the same flag if and only if the buffer holds nothing,
      the unfinished line is too long, or the last completed non-empty line is not. */
  lemma OverflowIndependentIff<W(!new)>(port: Port, s: State<W>, listener: Listener<W>, h: string)
    requires port.canRead && port.mode.TextLine? && Fresh(s) && OnlyWrites(listener)
    ensures FlagIndependent(port, s, listener, h)
      <==> port.cap == 0 || |Unfinished(h)| > port.cap || |Last(h)| <= port.cap
  {
    if port.cap == 0 || |Unfinished(h)| > port.cap || |Last(h)| <= port.cap {
      forall a: seq<Op>, b: seq<Op> | Drains(port, s, listener, a, h) && Drains(port, s, listener, b, h)
        ensures Flag(port, s, listener, a) == Flag(port, s, listener, b)
      {
        DrainedTells(port, s, listener, a, h);
        DrainedTells(port, s, listener, b, h);
      }
    } else {
      var a, c, t := SplitAtLast(h);
      PausedFlag(port, s, listener, a, c, t);
      AtOnceDrains(port, s, listener, h);
      AtOnceFlag(port, s, listener, h);
    }
  }
}
