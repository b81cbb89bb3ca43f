// Fragmentation independence: text-line framing refines one split of the whole byte history.

module Framing {
  import opened Basics
  import opened Streams

  // ---------- The reference: splitting a history into lines ----------

  function LineLen(h: string): (n: nat)
    ensures n <= |h|
    ensures n < |h| ==> IsBreak(h[n])
    ensures forall i :: 0 <= i < n ==> !IsBreak(h[i])
  {
    if h == "" || IsBreak(h[0]) then 0 else 1 + LineLen(h[1..])
  }

  /** The completed lines of a history, empty ones included. */
  function Lines(h: string): seq<string>
    decreases |h|
  {
    var n := LineLen(h);
    if n == |h| then [] else [h[..n]] + Lines(h[n + 1..])
  }

  /** What follows the last line break. */
  function Unfinished(h: string): (t: string)
    ensures forall i :: 0 <= i < |t| ==> !IsBreak(t[i])
    decreases |h|
  {
    var n := LineLen(h);
    if n == |h| then h else Unfinished(h[n + 1..])
  }

  /** Each line cut to the buffer capacity, empty results dropped. */
  function Clip(cap: nat, lines: seq<string>): seq<string> {
    if lines == [] then []
    else
      var m := Cut(lines[0], cap);
      (if m == "" then [] else [m]) + Clip(cap, lines[1..])
  }

  /** The messages a byte history stands for. */
  function Messages(cap: nat, h: string): seq<string> {
    Clip(cap, Lines(h))
  }

  // ---------- The reference, one byte at a time ----------

  lemma {:induction false} LineLenSplit(a: string, c: char, b: string)
    requires forall i :: 0 <= i < |a| ==> !IsBreak(a[i])
    requires IsBreak(c)
    ensures LineLen(a + ([c] + b)) == |a|
  {
    if a == "" {
      assert a + ([c] + b) == [c] + b;
    } else {
      assert (a + ([c] + b))[1..] == a[1..] + ([c] + b);
      LineLenSplit(a[1..], c, b);
    }
  }

  ghost predicate Unbroken(s: string) {
    forall i :: 0 <= i < |s| ==> !IsBreak(s[i])
  }

  /** A line ended by a newline is the first of the lines. */
  lemma LineThen(line: string, rest: string)
    requires Unbroken(line)
    ensures Lines(line + ("\n" + rest)) == [line] + Lines(rest)
    ensures Unfinished(line + ("\n" + rest)) == Unfinished(rest)
  {
    var all := line + ("\n" + rest);
    LineLenSplit(line, '\n', rest);
    assert all[..|line|] == line && all[|line| + 1..] == rest;
  }

  /** Lines, each ended by a newline. */
  function Joined(lines: seq<string>): string {
    if lines == [] then "" else lines[0] + "\n" + Joined(lines[1..])
  }

  /** Joined lines split back into exactly those lines. */
  lemma {:induction false} JoinedLines(lines: seq<string>)
    requires forall i :: 0 <= i < |lines| ==> Unbroken(lines[i])
    ensures Lines(Joined(lines)) == lines && Unfinished(Joined(lines)) == ""
  {
    if lines != [] {
      Assoc(lines[0], "\n", Joined(lines[1..]));
      LineThen(lines[0], Joined(lines[1..]));
      JoinedLines(lines[1..]);
    }
  }

  lemma {:induction false} LineLenNone(a: string)
    requires forall i :: 0 <= i < |a| ==> !IsBreak(a[i])
    ensures LineLen(a) == |a|
  {
    if a != "" {
      LineLenNone(a[1..]);
    }
  }

  /** Appending one byte completes the unfinished line or extends it. */
  lemma {:induction false} LinesSnoc(h: string, c: char)
    ensures Lines(h + [c]) == if IsBreak(c) then Lines(h) + [Unfinished(h)] else Lines(h)
    ensures Unfinished(h + [c]) == if IsBreak(c) then "" else Unfinished(h) + [c]
    decreases |h|
  {
    var n := LineLen(h);
    if n == |h| {
      if IsBreak(c) {
        NilUnit([c]);
        LineLenSplit(h, c, "");
        assert (h + [c])[..n] == h && (h + [c])[n + 1..] == "";
      } else {
        LineLenNone(h + [c]);
      }
    } else {
      var rest := h[n + 1..];
      assert h + [c] == h[..n] + ([h[n]] + (rest + [c]));
      LineLenSplit(h[..n], h[n], rest + [c]);
      assert (h + [c])[..n] == h[..n] && (h + [c])[n + 1..] == rest + [c];
      LinesSnoc(rest, c);
      Assoc([h[..n]], Lines(rest), [Unfinished(rest)]);
    }
  }

  lemma {:induction false} ClipAppend(cap: nat, a: seq<string>, b: seq<string>)
    ensures Clip(cap, a + b) == Clip(cap, a) + Clip(cap, b)
  {
    if a == [] {
      assert a + b == b;
    } else {
      assert (a + b)[1..] == a[1..] + b;
      ClipAppend(cap, a[1..], b);
      var m := Cut(a[0], cap);
      Assoc(if m == "" then [] else [m], Clip(cap, a[1..]), Clip(cap, b));
    }
  }

  lemma MessagesSnoc(cap: nat, h: string, c: char)
    ensures Messages(cap, h + [c]) ==
      if IsBreak(c) && Cut(Unfinished(h), cap) != "" then Messages(cap, h) + [Cut(Unfinished(h), cap)]
      else Messages(cap, h)
  {
    LinesSnoc(h, c);
    if IsBreak(c) {
      var t := Unfinished(h);
      ClipAppend(cap, Lines(h), [t]);
      assert [t][1..] == [];
      NilUnit(Messages(cap, h));
      NilUnit([Cut(t, cap)]);
    }
  }

  lemma {:induction false} MessagesPrefix(cap: nat, h: string, more: string)
    ensures Messages(cap, h) <= Messages(cap, h + more)
    decreases |more|
  {
    if more == "" {
      NilUnit(h);
    } else {
      MessagesSnoc(cap, h, more[0]);
      assert h + more == (h + [more[0]]) + more[1..];
      MessagesPrefix(cap, h + [more[0]], more[1..]);
      PrefixOfPrefix(Messages(cap, h), Messages(cap, h + [more[0]]), Messages(cap, h + more));
    }
  }

  lemma PrefixOfPrefix(a: seq<string>, b: seq<string>, c: seq<string>)
    requires a <= b <= c
    ensures a <= c
  {}

  // ---------- One receive loop against the reference ----------

  /** What the reference says a receive loop must have done with the bytes `used`. */
  ghost predicate Framed(cap: nat, h: string, used: string, r: Received) {
    && Messages(cap, h + used) == Messages(cap, h) + (if r.ready then [r.buf] else [])
    && Cut(Unfinished(h + used), cap) == (if r.ready then "" else r.buf)
  }

  /** One more byte at the front that completes no message. */
  lemma FramedCons(cap: nat, h: string, c: char, used: string, r: Received, r': Received)
    requires Messages(cap, h + [c]) == Messages(cap, h) && Framed(cap, h + [c], used, r)
    requires r'.ready == r.ready && r'.buf == r.buf
    ensures Framed(cap, h, [c] + used, r')
  {
    Assoc(h, [c], used);
  }

  /** The buffer after one byte that completes no message. */
  function Stored(cap: nat, buf: string, c: char): string {
    if !IsBreak(c) && |buf| < cap then buf + [c] else buf
  }

  lemma BufferSnoc(cap: nat, h: string, c: char)
    requires !(IsBreak(c) && Cut(Unfinished(h), cap) != "")
    ensures Messages(cap, h + [c]) == Messages(cap, h)
    ensures Cut(Unfinished(h + [c]), cap) == Stored(cap, Cut(Unfinished(h), cap), c)
  {
    LinesSnoc(h, c);
    MessagesSnoc(cap, h, c);
  }

  /** A line break behind a non-empty buffer completes a message. */
  lemma FramedBreak(cap: nat, h: string, c: char, r: Received)
    requires IsBreak(c) && r.ready && r.buf == Cut(Unfinished(h), cap) && r.buf != ""
    ensures Framed(cap, h, [c], r)
  {
    LinesSnoc(h, c);
    MessagesSnoc(cap, h, c);
  }

  lemma ReceiveCons(cap: nat, buf: string, input: string)
    requires input != "" && !(IsBreak(input[0]) && buf != "")
    ensures var r := Receive(TextLine, cap, buf, input);
      var r' := Receive(TextLine, cap, Stored(cap, buf, input[0]), input[1..]);
      r.ready == r'.ready && r.buf == r'.buf && r.rest == r'.rest
  {}

  /** The receive loop delivers at most one message: the one its consumed bytes complete. */
  lemma {:induction false} ReceiveFrames(cap: nat, h: string, buf: string, input: string) returns (used: string)
    requires buf == Cut(Unfinished(h), cap)
    ensures var r := Receive(TextLine, cap, buf, input);
      input == used + r.rest && Framed(cap, h, used, r)
    decreases |input|
  {
    var r := Receive(TextLine, cap, buf, input);
    if input == "" {
      used := "";
      NilUnit(h);
      NilUnit(Messages(cap, h));
      return;
    }
    var c, rest := input[0], input[1..];
    if IsBreak(c) && buf != "" {
      FramedBreak(cap, h, c, r);
      used := [c];
    } else {
      BufferSnoc(cap, h, c);
      ReceiveCons(cap, buf, input);
      var used' := ReceiveFrames(cap, h + [c], Stored(cap, buf, c), rest);
      FramedCons(cap, h, c, used', Receive(TextLine, cap, Stored(cap, buf, c), rest), r);
      used := [c] + used';
      Assoc([c], used', r.rest);
    }
  }

  // ---------- Runs ----------

  function AsSeq<T>(x: Option<T>): seq<T> {
    if x.Some? then [x.value] else []
  }

  /** Bytes arrive at the driver, or the stream is polled while the driver reports status `hw`. */
  datatype Op = Arrive(bytes: string) | Poll(hw: Bits)

  function Step<W>(port: Port, s: State<W>, listener: Listener<W>, op: Op): Updated<W> {
    match op
    case Arrive(bytes) => Updated(s.(inbox := s.inbox + bytes), OK, None)
    case Poll(hw) => Update(port, s.(link := s.link.(hw := hw)), listener)
  }

  function Run<W>(port: Port, s: State<W>, listener: Listener<W>, ops: seq<Op>): State<W>
    decreases |ops|
  {
    if ops == [] then s
    else Run(port, Step(port, s, listener, ops[0]).state, listener, ops[1..])
  }

  /** The messages handed to the callbacks, in order. */
  function Delivered<W>(port: Port, s: State<W>, listener: Listener<W>, ops: seq<Op>): seq<string>
    decreases |ops|
  {
    if ops == [] then []
    else
      var u := Step(port, s, listener, ops[0]);
      AsSeq(u.message) + Delivered(port, u.state, listener, ops[1..])
  }

  /** All bytes that arrive during a run, whatever their fragmentation. */
  function History(ops: seq<Op>): string {
    if ops == [] then "" else (if ops[0].Arrive? then ops[0].bytes else "") + History(ops[1..])
  }

  /** The stream has consumed exactly `h`. */
  ghost predicate Consumed<W>(port: Port, s: State<W>, h: string) {
    s.buf == Cut(Unfinished(h), port.cap)
  }

  lemma PollFrames<W>(port: Port, s: State<W>, listener: Listener<W>, op: Op, h: string) returns (used: string)
    requires port.canRead && port.mode.TextLine? && Consumed(port, s, h) && op.Poll?
    ensures var u := Step(port, s, listener, op);
      && s.inbox == used + u.state.inbox
      && Consumed(port, u.state, h + used)
      && Messages(port.cap, h + used) == Messages(port.cap, h) + AsSeq(u.message)
  {
    used := ReceiveFrames(port.cap, h, s.buf, s.inbox);
  }

  /** From any state reached after the bytes `h`, a run delivers exactly the messages its consumed bytes add. */
  lemma {:induction false} RunFrames<W>(port: Port, s: State<W>, listener: Listener<W>, ops: seq<Op>, h: string)
      returns (used: string)
    requires port.canRead && port.mode.TextLine? && Consumed(port, s, h)
    ensures var s' := Run(port, s, listener, ops);
      && s.inbox + History(ops) == used + s'.inbox
      && Consumed(port, s', h + used)
      && Messages(port.cap, h + used) == Messages(port.cap, h) + Delivered(port, s, listener, ops)
    decreases |ops|
  {
    if ops == [] {
      used := "";
      NilUnit(s.inbox);
      NilUnit(h);
      NilUnit(Messages(port.cap, h));
      return;
    }
    var u := Step(port, s, listener, ops[0]);
    var rest := History(ops[1..]);
    if ops[0].Arrive? {
      used := RunFrames(port, u.state, listener, ops[1..], h);
      Assoc(s.inbox, ops[0].bytes, rest);
      NilUnit(Delivered(port, u.state, listener, ops[1..]));
    } else {
      var first := PollFrames(port, s, listener, ops[0], h);
      var later := RunFrames(port, u.state, listener, ops[1..], h + first);
      used := first + later;
      NilUnit(rest);
      Assoc(first, u.state.inbox, rest);
      Assoc(first, later, Run(port, s, listener, ops).inbox);
      Assoc(h, first, later);
      var now := AsSeq(u.message);
      Assoc(Messages(port.cap, h), now, Delivered(port, u.state, listener, ops[1..]));
    }
  }

  /** Fragmentation independence: after any run, the delivered messages are those of the consumed bytes,
      a prefix of the split of the whole history, and all of it once the input is drained. */
  lemma FragmentationIndependence<W>(port: Port, s: State<W>, listener: Listener<W>, ops: seq<Op>)
    requires port.canRead && port.mode.TextLine? && s.buf == "" && s.inbox == ""
    ensures var s' := Run(port, s, listener, ops);
      && Delivered(port, s, listener, ops) <= Messages(port.cap, History(ops))
      && (s'.inbox == "" ==>
            && Delivered(port, s, listener, ops) == Messages(port.cap, History(ops))
            && s'.buf == Cut(Unfinished(History(ops)), port.cap))
  {
    var used := RunFrames(port, s, listener, ops, "");
    var s' := Run(port, s, listener, ops);
    NilUnit(History(ops));
    NilUnit(used);
    NilUnit(Delivered(port, s, listener, ops));
    MessagesPrefix(port.cap, used, s'.inbox);
  }

  /** Polling makes progress, so as many polls as there are unread bytes drain the input. */
  lemma {:induction false} PollsDrain<W>(port: Port, s: State<W>, listener: Listener<W>, ops: seq<Op>)
    requires port.canRead && |s.inbox| <= |ops| && forall i :: 0 <= i < |ops| ==> ops[i].Poll?
    ensures Run(port, s, listener, ops).inbox == ""
    decreases |ops|
  {
    if ops != [] {
      BytesAccounted(port.mode, port.cap, s.buf, s.inbox);
      PollsDrain(port, Step(port, s, listener, ops[0]).state, listener, ops[1..]);
    }
  }

  lemma {:induction false} RunAppend<W>(port: Port, s: State<W>, listener: Listener<W>, a: seq<Op>, b: seq<Op>)
    ensures Run(port, s, listener, a + b) == Run(port, Run(port, s, listener, a), listener, b)
    ensures History(a + b) == History(a) + History(b)
    decreases |a|
  {
    if a == [] {
      NilUnit(b);
      NilUnit(History(b));
    } else {
      assert (a + b)[1..] == a[1..] + b;
      RunAppend(port, Step(port, s, listener, a[0]).state, listener, a[1..], b);
      Assoc(if a[0].Arrive? then a[0].bytes else "", History(a[1..]), History(b));
    }
  }

  lemma {:induction false} InboxBounded<W>(port: Port, s: State<W>, listener: Listener<W>, ops: seq<Op>)
    ensures |Run(port, s, listener, ops).inbox| <= |s.inbox| + |History(ops)|
    decreases |ops|
  {
    if ops != [] {
      BytesAccounted(port.mode, port.cap, s.buf, s.inbox);
      InboxBounded(port, Step(port, s, listener, ops[0]).state, listener, ops[1..]);
    }
  }

  lemma {:induction false} PollsAddNothing(polls: seq<Op>)
    requires forall i :: 0 <= i < |polls| ==> polls[i].Poll?
    ensures History(polls) == ""
  {
    if polls != [] {
      PollsAddNothing(polls[1..]);
    }
  }

  /** Whatever happened before, one further poll for every byte that ever arrived drains the input and
      leaves the history as it is. */
  lemma EnoughPolls<W>(port: Port, s: State<W>, listener: Listener<W>, ops: seq<Op>, polls: seq<Op>)
    requires port.canRead && s.inbox == ""
    requires |polls| >= |History(ops)| && forall i :: 0 <= i < |polls| ==> polls[i].Poll?
    ensures Run(port, s, listener, ops + polls).inbox == ""
    ensures History(ops + polls) == History(ops)
  {
    RunAppend(port, s, listener, ops, polls);
    InboxBounded(port, s, listener, ops);
    PollsDrain(port, Run(port, s, listener, ops), listener, polls);
    PollsAddNothing(polls);
    NilUnit(History(ops));
  }

  function Idle<W>(): Listener<W> {
    (w, l, m) => (w, l)
  }

  /** The overflow flag, unlike the messages, does depend on the fragmentation: the same bytes leave it
      set when they come in one call and clear when the line ends in the next one. */
  lemma OverflowDependsOnFragmentation<W>(app: W)
    ensures var port, s := Port(TextLine, 1, true), State(app, "", "", Link("", 0, CLEAN, CLEAN, true));
      var whole := [Arrive("ab\n"), Poll(CLEAN)];
      var split := [Arrive("ab"), Poll(CLEAN)] + [Arrive("\n"), Poll(CLEAN)];
      && History(whole) == History(split)
      && Delivered(port, s, Idle(), whole) == Delivered(port, s, Idle(), split)
      && Run(port, s, Idle(), whole).link.status.overflow
      && !Run(port, s, Idle(), split).link.status.overflow
  {
    var port, s := Port(TextLine, 1, true), State(app, "", "", Link("", 0, CLEAN, CLEAN, true));
    var half := State(app, "a", "", Link("", 0, CLEAN, CLEAN.(overflow := true), true));
    TinyUpdates(app);
    OnePoll(port, s, Idle(), "ab\n");
    OnePoll(port, half, Idle(), "\n");
    TwoSteps(port, s, Idle(), "ab", [Arrive("\n"), Poll(CLEAN)]);
    NilUnit(["a"]);
  }

  lemma TinyUpdates<W>(app: W)
    ensures var port, s := Port(TextLine, 1, true), State(app, "", "", Link("", 0, CLEAN, CLEAN, true));
      var half := State(app, "a", "", Link("", 0, CLEAN, CLEAN.(overflow := true), true));
      && Update(port, s.(inbox := "ab\n"), Idle()) == Updated(half.(buf := ""), NO_RESOURCE, Some("a"))
      && Update(port, s.(inbox := "ab"), Idle()) == Updated(half, NO_RESOURCE, None)
      && Update(port, half.(inbox := "\n"), Idle()) == Updated(s, OK, Some("a"))
  {
    TinyTail();
    assert "ab\n"[1..] == "b\n" && "ab"[1..] == "b";
    assert Receive(TextLine, 1, "", "ab\n") == Received("a", "", true, 1, 1, 1);
    assert Receive(TextLine, 1, "", "ab") == Received("a", "", false, 1, 1, 0);
  }

  lemma TinyTail()
    ensures Receive(TextLine, 1, "a", "\n") == Received("a", "", true, 0, 0, 1)
    ensures Receive(TextLine, 1, "a", "b\n") == Received("a", "", true, 0, 1, 1)
    ensures Receive(TextLine, 1, "a", "b") == Received("a", "", false, 0, 1, 0)
  {
    assert "\n"[1..] == "";
    assert Receive(TextLine, 1, "a", "\n") == Received("a", "", true, 0, 0, 1);
    assert "b\n"[1..] == "\n";
    assert Receive(TextLine, 1, "a", "b\n") == Received("a", "", true, 0, 1, 1);
    assert "b"[1..] == "";
  }

  lemma OnePoll<W>(port: Port, s: State<W>, listener: Listener<W>, bytes: string)
    requires s.inbox == "" && s.link.hw == CLEAN
    ensures var u := Update(port, s.(inbox := bytes), listener);
      && Run(port, s, listener, [Arrive(bytes), Poll(CLEAN)]) == u.state
      && Delivered(port, s, listener, [Arrive(bytes), Poll(CLEAN)]) == AsSeq(u.message)
      && History([Arrive(bytes), Poll(CLEAN)]) == bytes
  {
    TwoSteps(port, s, listener, bytes, []);
    NilUnit([Arrive(bytes), Poll(CLEAN)]);
    NilUnit(bytes);
    NilUnit(AsSeq(Update(port, s.(inbox := bytes), listener).message));
  }

  lemma TwoSteps<W>(port: Port, s: State<W>, listener: Listener<W>, bytes: string, ops: seq<Op>)
    requires s.inbox == "" && s.link.hw == CLEAN
    ensures var u := Update(port, s.(inbox := bytes), listener);
      var all := [Arrive(bytes), Poll(CLEAN)] + ops;
      && Run(port, s, listener, all) == Run(port, u.state, listener, ops)
      && Delivered(port, s, listener, all) == AsSeq(u.message) + Delivered(port, u.state, listener, ops)
      && History(all) == bytes + History(ops)
  {
    var s1 := s.(inbox := bytes);
    NilUnit(bytes);
    NilUnit(History(ops));
    assert [Arrive(bytes), Poll(CLEAN)] + ops == [Arrive(bytes)] + ([Poll(CLEAN)] + ops);
    RunCons(port, s, listener, Arrive(bytes), [Poll(CLEAN)] + ops);
    RunCons(port, s1, listener, Poll(CLEAN), ops);
    assert s1.(link := s1.link.(hw := CLEAN)) == s1;
    NilUnit(Delivered(port, s1, listener, [Poll(CLEAN)] + ops));
  }

  lemma RunCons<W>(port: Port, s: State<W>, listener: Listener<W>, op: Op, ops: seq<Op>)
    ensures var u := Step(port, s, listener, op);
      && Run(port, s, listener, [op] + ops) == Run(port, u.state, listener, ops)
      && Delivered(port, s, listener, [op] + ops) == AsSeq(u.message) + Delivered(port, u.state, listener, ops)
      && History([op] + ops) == (if op.Arrive? then op.bytes else "") + History(ops)
  {
    assert ([op] + ops)[1..] == ops;
  }
}
