// From bytes on the wire to system operations and back: the console listening on its stream.

module EndToEnd {
  import opened Basics
  import opened Text
  import opened Streams
  import opened Framing
  import opened Systems
  import opened Dispatch
  import opened SystemCore
  import opened Commands
  import opened Meaning
  import opened Frames
  import opened StreamDevice
  import opened ConsoleDevice

  // ---------- The console as the listener of its stream ----------

  /** What the console's callback does with a message: the C string in the buffer is a command line. */
  ghost function Listening<S>(cfg: Config<S>): Listener<seq<S>> {
    (m, l, msg) =>
      if Valid(cfg, |m|) then (Process(cfg, m, l, CStr(msg)).0, Process(cfg, m, l, CStr(msg)).1.link) else (m, l)
  }

  /** One update of the stream of a console in text mode, with the console's callback registered. */
  method Serve<S>(console: Console<S>) returns (r: Status)
    requires console.Ready() && console.stream.mode.TextLine?
    modifies console.mem, console.argsBuffer
    modifies console.stream`rxIndex, console.stream`status, console.stream.driver, console.stream.rxBuffer
    ensures console.Ready()
    ensures var stream := console.stream;
      var u := Streams.Update(old(stream.Setup()), old(stream.Snapshot(console.mem[..])), Listening(console.cfg));
      stream.Snapshot(console.mem[..]) == u.state && r == u.status
  {
    var stream := console.stream;
    if !stream.driver.canRead {
      return NOT_SUPPORTED;
    }
    var was := stream.status.overflow;
    var ready, overflow := stream.ReceiveLoop();
    if ready {
      var st := console.ProcessCommand(CStr(stream.rxBuffer[..]));
      stream.rxIndex := 0;
    }
    r := stream.Finish(ready, was, overflow);
  }

  /** A whole run on the objects: bytes arriving at the driver, and updates while it reports some status. */
  method Perform<S>(console: Console<S>, ops: seq<Framing.Op>)
    requires console.Ready() && console.stream.mode.TextLine?
    modifies console.mem, console.argsBuffer
    modifies console.stream`rxIndex, console.stream`status, console.stream.driver, console.stream.rxBuffer
    ensures console.Ready() && console.stream.Setup() == old(console.stream.Setup())
    ensures console.stream.Snapshot(console.mem[..]) ==
      Run(console.stream.Setup(), old(console.stream.Snapshot(console.mem[..])), Listening(console.cfg), ops)
  {
    var i := 0;
    ghost var port, first := console.stream.Setup(), console.stream.Snapshot(console.mem[..]);
    while i < |ops|
      invariant 0 <= i <= |ops| && console.Ready() && console.stream.Setup() == port
      invariant Run(port, console.stream.Snapshot(console.mem[..]), Listening(console.cfg), ops[i..])
        == Run(port, first, Listening(console.cfg), ops)
    {
      assert ops[i..][1..] == ops[i + 1..];
      PerformOne(console, ops[i]);
      i := i + 1;
    }
  }

  method PerformOne<S>(console: Console<S>, op: Framing.Op)
    requires console.Ready() && console.stream.mode.TextLine?
    modifies console.mem, console.argsBuffer
    modifies console.stream`rxIndex, console.stream`status, console.stream.driver, console.stream.rxBuffer
    ensures console.Ready() && console.stream.Setup() == old(console.stream.Setup())
    ensures console.stream.Snapshot(console.mem[..]) == Framing.Step(console.stream.Setup(),
      old(console.stream.Snapshot(console.mem[..])), Listening(console.cfg), op).state
  {
    var driver := console.stream.driver;
    match op {
      case Arrive(bytes) =>
        driver.inbox := driver.inbox + bytes;
      case Poll(hw) =>
        driver.hw := hw;
        var _ := Serve(console);
    }
  }

  /** The console's effect on the link is that of its writes. */
  lemma ConsoleOnlyWrites<S(!new)>(cfg: Config<S>)
    ensures OnlyWrites(Listening(cfg))
  {
    forall m: seq<S>, l: Link, msg: string ensures Quiet(Listening(cfg), m, l, msg) {
      if Valid(cfg, |m|) {
        var o := Execute(cfg, m, Parse(cfg, m, Tokens(CStr(msg))).cmd);
        SendAllKeepsOverflow(l, Pieces(cfg, o.mem, Echo(CStr(msg)), o.reply));
      }
    }
  }

  /** While the overflow bit is set, or the driver reports anything, a reply stops after its first write: of a
      response frame only the start mark is sent, though the command has been performed. */
  lemma UnsoundLinkSilences<S>(cfg: Config<S>, m: seq<S>, l: Link, msg: string)
    requires Valid(cfg, |m|) && l.canWrite && !Sound(l.hw, l.status)
    ensures var o := Interpret(cfg, m, CStr(msg));
      && Listening(cfg)(m, l, msg).0 == o.mem
      && (o.reply.Response? ==> Listening(cfg)(m, l, msg).1.out == l.out + Cut("\U{02}", l.room))
  {
    var o := Interpret(cfg, m, CStr(msg));
    ReadyIff(l);
    if o.reply.Response? {
      var pieces := Pieces(cfg, o.mem, Echo(CStr(msg)), o.reply);
      assert pieces[0] == "\U{02}";
      SendAllNotReady(l, pieces);
      WriteReports(l, pieces[0]);
    }
  }

  // ---------- What a list of messages does ----------

  /** The memory after the messages, in order. */
  ghost function After<S>(cfg: Config<S>, m: seq<S>, msgs: seq<string>): (m': seq<S>)
    requires Valid(cfg, |m|)
    ensures |m'| == |m|
    decreases |msgs|
  {
    if msgs == [] then m else After(cfg, Interpret(cfg, m, CStr(msgs[0])).mem, msgs[1..])
  }

  /** The commands the messages are taken for, in order. */
  ghost function Executed<S>(cfg: Config<S>, m: seq<S>, msgs: seq<string>): seq<Command>
    requires Valid(cfg, |m|)
    decreases |msgs|
  {
    if msgs == [] then []
    else
      [Parse(cfg, m, Tokens(CStr(msgs[0]))).cmd] + Executed(cfg, Interpret(cfg, m, CStr(msgs[0])).mem, msgs[1..])
  }

  /** The bytes of the replies, in order. */
  ghost function Replies<S>(cfg: Config<S>, m: seq<S>, msgs: seq<string>): seq<string>
    requires Valid(cfg, |m|)
    decreases |msgs|
  {
    if msgs == [] then []
    else
      var o := Interpret(cfg, m, CStr(msgs[0]));
      [Concat(Pieces(cfg, o.mem, Echo(CStr(msgs[0])), o.reply))] + Replies(cfg, o.mem, msgs[1..])
  }

  lemma {:induction false} AfterAppend<S>(cfg: Config<S>, m: seq<S>, a: seq<string>, b: seq<string>)
    requires Valid(cfg, |m|)
    ensures After(cfg, m, a + b) == After(cfg, After(cfg, m, a), b)
    decreases |a|
  {
    if a == [] {
      NilUnit(b);
    } else {
      assert a + b == [a[0]] + (a[1..] + b) && (a + b)[1..] == a[1..] + b;
      AfterAppend(cfg, Interpret(cfg, m, CStr(a[0])).mem, a[1..], b);
    }
  }

  lemma {:induction false} RepliesAppend<S>(cfg: Config<S>, m: seq<S>, a: seq<string>, b: seq<string>)
    requires Valid(cfg, |m|)
    ensures Replies(cfg, m, a + b) == Replies(cfg, m, a) + Replies(cfg, After(cfg, m, a), b)
    decreases |a|
  {
    if a == [] {
      NilUnit(b);
      NilUnit(Replies(cfg, m, b));
    } else {
      assert a + b == [a[0]] + (a[1..] + b) && (a + b)[1..] == a[1..] + b;
      RepliesAppend(cfg, Interpret(cfg, m, CStr(a[0])).mem, a[1..], b);
      Assoc([Replies(cfg, m, a)[0]], Replies(cfg, m, a)[1..], Replies(cfg, After(cfg, m, a), b));
    }
  }

  lemma StepFolds<S>(cfg: Config<S>, port: Port, s: State<seq<S>>, op: Framing.Op)
    requires Valid(cfg, |s.app|)
    ensures var u := Framing.Step(port, s, Listening(cfg), op);
      u.state.app == After(cfg, s.app, AsSeq(u.message))
  {
    var u := Framing.Step(port, s, Listening(cfg), op);
    if u.message.Some? {
      assert [u.message.value][1..] == [];
    }
  }

  /** Whatever the fragmentation, a run changes the memory as its delivered messages do, each once and in order. */
  lemma {:induction false} RunFolds<S>(cfg: Config<S>, port: Port, s: State<seq<S>>, ops: seq<Framing.Op>)
    requires Valid(cfg, |s.app|)
    ensures Run(port, s, Listening(cfg), ops).app == After(cfg, s.app, Delivered(port, s, Listening(cfg), ops))
    decreases |ops|
  {
    if ops != [] {
      var u := Framing.Step(port, s, Listening(cfg), ops[0]);
      StepFolds(cfg, port, s, ops[0]);
      RunFolds(cfg, port, u.state, ops[1..]);
      AfterAppend(cfg, s.app, AsSeq(u.message), Delivered(port, u.state, Listening(cfg), ops[1..]));
    }
  }

  // ---------- Scripts ----------

  /** A command: an operation on the system with number `id`. */
  datatype Typed = Typed(id: u8, op: Commands.Op)

  function Texts(cmds: seq<Typed>): (r: seq<string>)
    ensures |r| == |cmds| && forall i :: 0 <= i < |cmds| ==> r[i] == Render(cmds[i].id, cmds[i].op)
  {
    if cmds == [] then [] else [Render(cmds[0].id, cmds[0].op)] + Texts(cmds[1..])
  }

  /** A line without line breaks and NUL characters. */
  ghost predicate Typable(s: string) {
    forall i :: 0 <= i < |s| ==> !IsBreak(s[i]) && s[i] != '\0'
  }

  lemma DecimalTypable(n: nat)
    ensures Typable(Decimal(n))
  {
    var s := Decimal(n);
    assert forall i :: 0 <= i < |s| ==> IsDigit(s[i]);
  }

  lemma NumeralTypable(v: int)
    ensures Typable(Numeral(v))
  {
    DecimalTypable(Abs(v));
  }

  lemma {:induction false} ArgsTypable(args: seq<int32>)
    ensures Typable(ArgText(args))
  {
    if args != [] {
      NumeralTypable(args[0]);
      ArgsTypable(args[1..]);
    }
  }

  lemma TypableJoin(a: string, b: string)
    requires Typable(a) && Typable(b)
    ensures Typable(a + b)
  {}

  lemma OperandTypable(op: Commands.Op)
    ensures Typable(Operand(op))
    ensures Operand(op) == "" || !IsSpace(Operand(op)[|Operand(op)| - 1])
  {
    match op
    case WriteInput(_, v) =>
      NumeralTypable(v);
      TypableJoin(" = ", Numeral(v));
      EndsInDigit(Abs(v));
    case Call(_, args) =>
      ArgsTypable(args);
      TypableJoin("(" + ArgText(args), ")");
    case _ =>
  }

  lemma EndsInDigit(n: nat)
    ensures Decimal(n) != "" && IsDigit(Decimal(n)[|Decimal(n)| - 1])
  {
    var s := Decimal(n);
    assert forall i :: 0 <= i < |s| ==> IsDigit(s[i]);
  }

  /** A printed command is one line that starts and ends with a printing character. */
  lemma RenderTypable(id: u8, op: Commands.Op)
    ensures var s := Render(id, op);
      Typable(s) && s != "" && !IsDelimiter(s[0]) && !IsSpace(s[|s| - 1])
  {
    DecimalTypable(id);
    DecimalTypable(op.id);
    OperandTypable(op);
    EndsInDigit(op.id);
    TypableJoin("s" + Decimal(id), ".");
    assert Typable(Member(op));
    TypableJoin(Member(op), Operand(op));
    TypableJoin("s" + Decimal(id) + ".", Member(op) + Operand(op));
    var tail := Member(op) + Operand(op);
    assert tail[|tail| - 1] == if Operand(op) == "" then Member(op)[|Member(op)| - 1] else Operand(op)[|Operand(op)| - 1];
  }

  lemma {:induction false} CStrWhole(s: string)
    requires Typable(s)
    ensures CStr(s) == s
  {
    CStrTerminated(s, "");
  }

  lemma {:induction false} ClipFits(cap: nat, lines: seq<string>)
    requires forall i :: 0 <= i < |lines| ==> 0 < |lines[i]| <= cap
    ensures Clip(cap, lines) == lines
  {
    if lines != [] {
      ClipFits(cap, lines[1..]);
      assert Cut(lines[0], cap) == lines[0];
    }
  }

  lemma JoinedMessages(cap: nat, lines: seq<string>)
    requires forall i :: 0 <= i < |lines| ==> Typable(lines[i]) && 0 < |lines[i]| <= cap
    ensures Messages(cap, Joined(lines)) == lines && Unfinished(Joined(lines)) == ""
  {
    JoinedLines(lines);
    ClipFits(cap, lines);
  }

  // ---------- Commands in, operations out ----------

  function SystemAt<S>(cfg: Config<S>, id: u8): Option<System<S>> {
    match FindById(cfg.entries, id) case None => None case Some(i) => cfg.entries[i].system
  }

  /** Running the operations directly, each on the first system with its number. */
  ghost function Performed<S>(cfg: Config<S>, m: seq<S>, cmds: seq<Typed>): (m': seq<S>)
    requires Valid(cfg, |m|)
    decreases |cmds|
  {
    if cmds == [] then m
    else Performed(cfg, Outcomes(cfg, m, cmds[0]).mem, cmds[1..])
  }

  /** The results of those operations. */
  ghost function Returned<S>(cfg: Config<S>, m: seq<S>, cmds: seq<Typed>): (r: seq<Reply>)
    requires Valid(cfg, |m|)
    decreases |cmds|
  {
    if cmds == [] then []
    else [Outcomes(cfg, m, cmds[0]).reply] + Returned(cfg, Outcomes(cfg, m, cmds[0]).mem, cmds[1..])
  }

  /** One operation, spelled out on the system: a write or a call changes the memory as the system does and
      gives 0 or the error it reports; a read changes nothing and gives what the system reads. */
  ghost function Outcomes<S>(cfg: Config<S>, m: seq<S>, c: Typed): (o: Outcome<S>)
    requires Valid(cfg, |m|)
    ensures |o.mem| == |m| && o.reply.Response?
  {
    if SystemAt(cfg, c.id).None? then Outcome(m, Response(Err(INVALID_ARGS)))
    else
      var sys := SystemAt(cfg, c.id).value;
      match c.op
      case WriteInput(j, v) =>
        var e := GuardedWrite(sys, m, j, v);
        Outcome(e.mem, Response(if e.status == 0 then Value(0) else Err(e.status)))
      case ReadInput(j) => Outcome(m, Response(GuardedRead(sys, m, Input, j)))
      case ReadOutput(j) => Outcome(m, Response(GuardedRead(sys, m, Output, j)))
      case Call(j, args) =>
        var e := GuardedInvoke(sys, m, j, args);
        Outcome(e.mem, Response(if e.status == 0 then Value(0) else Err(e.status)))
  }

  /** Every command addresses a present system by a member that no alias of it spells at that moment, and
      its arguments fit the argument buffer. */
  ghost predicate Addressed<S>(cfg: Config<S>, m: seq<S>, cmds: seq<Typed>)
    requires Valid(cfg, |m|)
    decreases |cmds|
  {
    cmds == [] ||
      (var c := cmds[0];
       && Addresses(cfg, m, c.id, c.op)
       && (c.op.Call? ==> |c.op.args| <= cfg.argsCount)
       && Addressed(cfg, Outcomes(cfg, m, c).mem, cmds[1..]))
  }

  ghost function Operations<S>(cfg: Config<S>, cmds: seq<Typed>): (r: seq<Command>)
    ensures |r| == |cmds|
  {
    if cmds == [] then []
    else
      [match FindById(cfg.entries, cmds[0].id) case None => Malformed case Some(i) => Operate(i, cmds[0].op)]
        + Operations(cfg, cmds[1..])
  }

  /** One printed command, processed as a line. */
  lemma TypedRuns<S>(cfg: Config<S>, m: seq<S>, c: Typed)
    requires Valid(cfg, |m|) && Addresses(cfg, m, c.id, c.op)
    requires c.op.Call? ==> |c.op.args| <= cfg.argsCount
    ensures var text := CStr(Render(c.id, c.op));
      && text == Render(c.id, c.op)
      && Interpret(cfg, m, text) == Outcomes(cfg, m, c)
      && FindById(cfg.entries, c.id).Some?
      && Parse(cfg, m, Tokens(text)).cmd == Operate(FindById(cfg.entries, c.id).value, c.op)
  {
    RenderTypable(c.id, c.op);
    CStrWhole(Render(c.id, c.op));
    RenderedCommandRuns(cfg, m, c.id, c.op);
    CommandRoundTrip(cfg, m, c.id, c.op);
    NothingCut(cfg, c.op);
  }

  /** Processing the printed commands is performing the operations. */
  lemma {:induction false} TextsRun<S>(cfg: Config<S>, m: seq<S>, cmds: seq<Typed>)
    requires Valid(cfg, |m|) && Addressed(cfg, m, cmds)
    ensures After(cfg, m, Texts(cmds)) == Performed(cfg, m, cmds)
    ensures Executed(cfg, m, Texts(cmds)) == Operations(cfg, cmds)
    decreases |cmds|
  {
    if cmds != [] {
      TypedRuns(cfg, m, cmds[0]);
      assert Texts(cmds)[1..] == Texts(cmds[1..]);
      TextsRun(cfg, Outcomes(cfg, m, cmds[0]).mem, cmds[1..]);
    }
  }

  /** Whoever listens, a stream that receives the printed commands as lines delivers exactly them. */
  lemma ScriptDelivered<W>(port: Port, s: State<W>, listener: Listener<W>, ops: seq<Framing.Op>, cmds: seq<Typed>)
    requires port.canRead && port.mode.TextLine? && s.buf == "" && s.inbox == ""
    requires History(ops) == Joined(Texts(cmds))
    requires forall i :: 0 <= i < |cmds| ==> |Render(cmds[i].id, cmds[i].op)| <= port.cap
    requires Run(port, s, listener, ops).inbox == ""
    ensures Delivered(port, s, listener, ops) == Texts(cmds)
    ensures Run(port, s, listener, ops).buf == ""
  {
    forall i | 0 <= i < |cmds| ensures Typable(Texts(cmds)[i]) && Texts(cmds)[i] != "" {
      RenderTypable(cmds[i].id, cmds[i].op);
    }
    JoinedMessages(port.cap, Texts(cmds));
    FragmentationIndependence(port, s, listener, ops);
  }

  /** End to end: printed commands that fit the receive buffer, sent as lines under any fragmentation, make
      the console run exactly those operations, once each and in order, when the input has been drained. */
  lemma CommandsRunOnceInOrder<S>(cfg: Config<S>, port: Port, s: State<seq<S>>, ops: seq<Framing.Op>, cmds: seq<Typed>)
    requires Valid(cfg, |s.app|) && Addressed(cfg, s.app, cmds)
    requires port.canRead && port.mode.TextLine? && s.buf == "" && s.inbox == ""
    requires History(ops) == Joined(Texts(cmds))
    requires forall i :: 0 <= i < |cmds| ==> |Render(cmds[i].id, cmds[i].op)| <= port.cap
    ensures Run(port, s, Listening(cfg), ops).inbox == "" ==>
      && Delivered(port, s, Listening(cfg), ops) == Texts(cmds)
      && Executed(cfg, s.app, Delivered(port, s, Listening(cfg), ops)) == Operations(cfg, cmds)
      && Run(port, s, Listening(cfg), ops).app == Performed(cfg, s.app, cmds)
      && Run(port, s, Listening(cfg), ops).buf == ""
  {
    if Run(port, s, Listening(cfg), ops).inbox == "" {
      ScriptDelivered(port, s, Listening(cfg), ops, cmds);
      RunFolds(cfg, port, s, ops);
      TextsRun(cfg, s.app, cmds);
    }
  }

  /** The same on the objects. */
  method PerformCommands<S>(console: Console<S>, ops: seq<Framing.Op>, ghost cmds: seq<Typed>)
    requires console.Ready() && console.stream.mode.TextLine? && console.stream.driver.canRead
    requires console.stream.Buffer() == "" && console.stream.driver.inbox == ""
    requires Addressed(console.cfg, console.mem[..], cmds) && History(ops) == Joined(Texts(cmds))
    requires forall i :: 0 <= i < |cmds| ==> |Render(cmds[i].id, cmds[i].op)| <= console.stream.Cap()
    modifies console.mem, console.argsBuffer
    modifies console.stream`rxIndex, console.stream`status, console.stream.driver, console.stream.rxBuffer
    ensures console.Ready()
    ensures console.stream.driver.inbox == "" ==> console.mem[..] == Performed(console.cfg, old(console.mem[..]), cmds)
  {
    ghost var port, first := console.stream.Setup(), console.stream.Snapshot(console.mem[..]);
    Perform(console, ops);
    if console.stream.driver.inbox == "" {
      CommandsRunOnceInOrder(console.cfg, port, first, ops, cmds);
    }
  }

  // ---------- Replies out ----------

  /** No prefix of the bytes leaves an unfinished line that overflows the buffer. */
  ghost predicate NeverTooLong(cap: nat, h: string) {
    forall k :: 0 <= k <= |h| ==> |Unfinished(h[..k])| <= cap
  }

  lemma NeverTooLongPrefix(cap: nat, h: string, more: string)
    requires NeverTooLong(cap, h + more)
    ensures NeverTooLong(cap, h)
  {
    forall k | 0 <= k <= |h| ensures |Unfinished(h[..k])| <= cap {
      assert (h + more)[..k] == h[..k];
    }
  }

  /** Then no byte is dropped. */
  lemma {:induction false} NothingDropped(cap: nat, h: string, buf: string, input: string)
    requires buf == Cut(Unfinished(h), cap) && NeverTooLong(cap, h + input)
    ensures Receive(TextLine, cap, buf, input).dropped == 0
    decreases |input|
  {
    if input != "" {
      var c, rest := input[0], input[1..];
      var h' := h + [c];
      assert (h + input)[..|h|] == h && (h + input)[..|h| + 1] == h';
      assert h + input == h' + rest;
      LinesSnoc(h, c);
      assert |Unfinished(h)| <= cap && |Unfinished(h')| <= cap;
      if IsBreak(c) {
        if buf == "" {
          NothingDropped(cap, h', "", rest);
        }
      } else {
        NothingDropped(cap, h', buf + [c], rest);
      }
    }
  }

  lemma {:induction false} JoinedNeverTooLong(cap: nat, lines: seq<string>, k: nat)
    requires forall i :: 0 <= i < |lines| ==> Typable(lines[i]) && |lines[i]| <= cap
    requires k <= |Joined(lines)|
    ensures |Unfinished(Joined(lines)[..k])| <= cap
    decreases |lines|
  {
    if lines != [] {
      var line, rest := lines[0], Joined(lines[1..]);
      if k <= |line| {
        assert Joined(lines)[..k] == line[..k];
        LineLenNone(line[..k]);
      } else {
        var j := k - |line| - 1;
        assert Joined(lines)[..k] == line + ("\n" + rest[..j]);
        LineThen(line, rest[..j]);
        JoinedNeverTooLong(cap, lines[1..], j);
      }
    }
  }

  lemma ScriptNeverTooLong(cap: nat, cmds: seq<Typed>)
    requires forall i :: 0 <= i < |cmds| ==> |Render(cmds[i].id, cmds[i].op)| <= cap
    ensures NeverTooLong(cap, Joined(Texts(cmds)))
  {
    forall i | 0 <= i < |cmds| ensures Typable(Texts(cmds)[i]) {
      RenderTypable(cmds[i].id, cmds[i].op);
    }
    forall k | 0 <= k <= |Joined(Texts(cmds))| ensures |Unfinished(Joined(Texts(cmds))[..k])| <= cap {
      JoinedNeverTooLong(cap, Texts(cmds), k);
    }
  }

  /** Nothing has gone wrong on the link, and the driver reports no error. */
  ghost predicate Healthy(l: Link) {
    l.canWrite && !l.status.overflow
  }

  ghost predicate Clean(ops: seq<Framing.Op>) {
    forall i :: 0 <= i < |ops| ==> ops[i].Poll? ==> ops[i].hw == CLEAN
  }

  /** The link after the bytes `sent`: they are in the sink, as far as it has room. */
  ghost predicate Answered(l: Link, sent: string, l': Link) {
    l'.out == l.out + Cut(sent, l.room) && l'.room == l.room - Min(|sent|, l.room) && Healthy(l')
  }

  lemma AnsweredTwice(l: Link, a: string, l': Link, b: string, l'': Link)
    requires Answered(l, a, l') && Answered(l', b, l'')
    ensures Answered(l, a + b, l'')
  {
    CutConcat(a, b, l.room);
    Assoc(l.out, Cut(a, l.room), Cut(b, l'.room));
  }

  /** One message, answered. */
  lemma MessageAnswered<S>(cfg: Config<S>, m: seq<S>, l: Link, msg: string)
    requires Valid(cfg, |m|) && Healthy(l) && l.hw == CLEAN
    ensures Answered(l, Concat(Replies(cfg, m, [msg])), Listening(cfg)(m, l, msg).1)
    ensures Listening(cfg)(m, l, msg).1.hw == CLEAN
  {
    var text := CStr(msg);
    var o := Interpret(cfg, m, text);
    var pieces := Pieces(cfg, o.mem, Echo(text), o.reply);
    assert [msg][1..] == [];
    ConcatOne(Concat(pieces));
    NilUnit([Concat(pieces)]);
    SendAllReady(l, pieces);
  }

  lemma StepAnswered<S>(cfg: Config<S>, port: Port, s: State<seq<S>>, op: Framing.Op, h: string)
    requires Valid(cfg, |s.app|) && port.canRead && port.mode.TextLine? && Consumed(port, s, h)
    requires Healthy(s.link) && (op.Poll? ==> op.hw == CLEAN) && NeverTooLong(port.cap, h + s.inbox)
    ensures var u := Framing.Step(port, s, Listening(cfg), op);
      Answered(s.link, Concat(Replies(cfg, s.app, AsSeq(u.message))), u.state.link)
  {
    NilUnit(s.link.out);
    if op.Poll? {
      var l := s.link.(hw := CLEAN);
      var r := Receive(TextLine, port.cap, s.buf, s.inbox);
      NothingDropped(port.cap, h, s.buf, s.inbox);
      if r.ready {
        MessageAnswered(cfg, s.app, l, r.buf);
      }
    }
  }

  /** In a run that drops no byte over a driver that reports no error, the bytes sent are exactly the replies
      to the delivered messages, in order, as far as the sink has room. */
  lemma {:induction false} RunAnswered<S>(cfg: Config<S>, port: Port, s: State<seq<S>>, ops: seq<Framing.Op>, h: string)
    requires Valid(cfg, |s.app|) && port.canRead && port.mode.TextLine? && Consumed(port, s, h)
    requires Healthy(s.link) && Clean(ops) && NeverTooLong(port.cap, h + (s.inbox + History(ops)))
    ensures Answered(s.link, Concat(Replies(cfg, s.app, Delivered(port, s, Listening(cfg), ops))),
                     Run(port, s, Listening(cfg), ops).link)
    decreases |ops|
  {
    NilUnit(s.link.out);
    if ops != [] {
      var op, more := ops[0], ops[1..];
      var u := Framing.Step(port, s, Listening(cfg), op);
      var later := Delivered(port, u.state, Listening(cfg), more);
      StepFolds(cfg, port, s, op);
      RepliesAppend(cfg, s.app, AsSeq(u.message), later);
      ConcatAppend(Replies(cfg, s.app, AsSeq(u.message)), Replies(cfg, u.state.app, later));
      Assoc(h, s.inbox, History(ops));
      NeverTooLongPrefix(port.cap, h + s.inbox, History(ops));
      StepAnswered(cfg, port, s, op, h);
      var h' := StepHistory(cfg, port, s, op, h, History(more));
      assert History(ops) == (if op.Arrive? then op.bytes else "") + History(more);
      RunAnswered(cfg, port, u.state, more, h');
      AnsweredTwice(s.link, Concat(Replies(cfg, s.app, AsSeq(u.message))), u.state.link,
        Concat(Replies(cfg, u.state.app, later)), Run(port, s, Listening(cfg), ops).link);
    }
  }

  /** A step moves bytes from the input to the history. */
  lemma StepHistory<S>(cfg: Config<S>, port: Port, s: State<seq<S>>, op: Framing.Op, h: string, more: string)
      returns (h': string)
    requires port.canRead && port.mode.TextLine? && Consumed(port, s, h)
    ensures var u := Framing.Step(port, s, Listening(cfg), op);
      && Consumed(port, u.state, h')
      && h + (s.inbox + ((if op.Arrive? then op.bytes else "") + more)) == h' + (u.state.inbox + more)
  {
    if op.Arrive? {
      h' := h;
      Assoc(s.inbox, op.bytes, more);
    } else {
      var used := PollFrames(port, s, Listening(cfg), op, h);
      var u := Framing.Step(port, s, Listening(cfg), op);
      h' := h + used;
      NilUnit(more);
      Assoc(used, u.state.inbox, more);
      Assoc(h, used, u.state.inbox + more);
    }
  }

  // ---------- Reading the replies back ----------

  /** All frames off a byte stream. */
  function DecodeAll(bytes: string): seq<(string, Result)>
    decreases |bytes|
  {
    match Decode(bytes)
    case None => []
    case Some(d) => [(d.echo, d.result)] + DecodeAll(d.rest)
  }

  /** Each command with the result of its operation. */
  ghost function Transcript<S>(cfg: Config<S>, m: seq<S>, cmds: seq<Typed>): seq<(string, Result)>
    requires Valid(cfg, |m|)
    decreases |cmds|
  {
    if cmds == [] then []
    else
      var o := Outcomes(cfg, m, cmds[0]);
      [(Render(cmds[0].id, cmds[0].op), o.reply.result)] + Transcript(cfg, o.mem, cmds[1..])
  }

  lemma RenderOneLine(id: u8, op: Commands.Op)
    ensures OneLine(Render(id, op))
  {
    RenderTypable(id, op);
  }

  lemma RenderEcho(id: u8, op: Commands.Op)
    requires |Render(id, op)| <= 0xFF
    ensures Echo(Render(id, op)) == Render(id, op)
  {
    var s := Render(id, op);
    RenderTypable(id, op);
    Low8Small(TrimLen(s));
  }

  lemma ResponseFrame<S>(cfg: Config<S>, m: seq<S>, echo: string, r: Result)
    requires Valid(cfg, |m|) && cfg.txLen >= 12
    ensures Concat(Pieces(cfg, m, echo, Response(r))) == Frame(echo, r)
  {
    ConcatResponse(cfg, echo, r);
  }

  /** The reply to a printed command is the frame of the command and the result of its operation. */
  lemma TypedReply<S>(cfg: Config<S>, m: seq<S>, c: Typed)
    requires Valid(cfg, |m|) && Addresses(cfg, m, c.id, c.op) && cfg.txLen >= 12 && |Render(c.id, c.op)| <= 0xFF
    requires c.op.Call? ==> |c.op.args| <= cfg.argsCount
    ensures var text, o := Render(c.id, c.op), Outcomes(cfg, m, c);
      && CStr(text) == text && Interpret(cfg, m, text) == o
      && Concat(Pieces(cfg, o.mem, Echo(text), o.reply)) == Frame(text, o.reply.result)
  {
    var o := Outcomes(cfg, m, c);
    TypedRuns(cfg, m, c);
    RenderEcho(c.id, c.op);
    ResponseFrame(cfg, o.mem, Render(c.id, c.op), o.reply.result);
  }

  lemma DecodeAllThen(echo: string, r: Result, more: string)
    requires OneLine(echo)
    ensures DecodeAll(Frame(echo, r) + more) == [(echo, r)] + DecodeAll(more)
  {
    FrameRoundTrip(echo, r, more);
  }

  /** The bytes of the frames that answer the commands. */
  ghost function FrameBytes<S>(cfg: Config<S>, m: seq<S>, cmds: seq<Typed>): string
    requires Valid(cfg, |m|)
    decreases |cmds|
  {
    if cmds == [] then ""
    else
      var o := Outcomes(cfg, m, cmds[0]);
      Frame(Render(cmds[0].id, cmds[0].op), o.reply.result) + FrameBytes(cfg, o.mem, cmds[1..])
  }

  lemma {:induction false} RepliesAreFrames<S>(cfg: Config<S>, m: seq<S>, cmds: seq<Typed>)
    requires Valid(cfg, |m|) && Addressed(cfg, m, cmds) && cfg.txLen >= 12
    requires forall i :: 0 <= i < |cmds| ==> |Render(cmds[i].id, cmds[i].op)| <= 0xFF
    ensures Concat(Replies(cfg, m, Texts(cmds))) == FrameBytes(cfg, m, cmds)
    decreases |cmds|
  {
    if cmds != [] {
      var c := cmds[0];
      TypedReply(cfg, m, c);
      RepliesAreFrames(cfg, Outcomes(cfg, m, c).mem, cmds[1..]);
      RepliesCons(cfg, m, Render(c.id, c.op), Texts(cmds[1..]));
    }
  }

  lemma {:induction false} FramesDecode<S>(cfg: Config<S>, m: seq<S>, cmds: seq<Typed>)
    requires Valid(cfg, |m|)
    ensures DecodeAll(FrameBytes(cfg, m, cmds)) == Transcript(cfg, m, cmds)
    decreases |cmds|
  {
    if cmds != [] {
      var c := cmds[0];
      var o := Outcomes(cfg, m, c);
      RenderOneLine(c.id, c.op);
      DecodeAllThen(Render(c.id, c.op), o.reply.result, FrameBytes(cfg, o.mem, cmds[1..]));
      FramesDecode(cfg, o.mem, cmds[1..]);
    }
  }

  lemma RepliesCons<S>(cfg: Config<S>, m: seq<S>, msg: string, msgs: seq<string>)
    requires Valid(cfg, |m|)
    ensures var o := Interpret(cfg, m, CStr(msg));
      Concat(Replies(cfg, m, [msg] + msgs)) ==
        Concat(Pieces(cfg, o.mem, Echo(CStr(msg)), o.reply)) + Concat(Replies(cfg, o.mem, msgs))
  {
    assert ([msg] + msgs)[1..] == msgs;
    var o := Interpret(cfg, m, CStr(msg));
    var reply := Concat(Pieces(cfg, o.mem, Echo(CStr(msg)), o.reply));
    assert ([reply] + Replies(cfg, o.mem, msgs))[1..] == Replies(cfg, o.mem, msgs);
  }

  lemma FramesSent<S>(cfg: Config<S>, port: Port, s: State<seq<S>>, ops: seq<Framing.Op>, cmds: seq<Typed>)
    requires Valid(cfg, |s.app|) && Addressed(cfg, s.app, cmds) && cfg.txLen >= 12
    requires port.canRead && port.mode.TextLine? && s.buf == "" && s.inbox == ""
    requires History(ops) == Joined(Texts(cmds))
    requires forall i :: 0 <= i < |cmds| ==> |Render(cmds[i].id, cmds[i].op)| <= Min(port.cap, 0xFF)
    requires Run(port, s, Listening(cfg), ops).inbox == ""
    requires Healthy(s.link) && Clean(ops)
    ensures Answered(s.link, FrameBytes(cfg, s.app, cmds), Run(port, s, Listening(cfg), ops).link)
  {
    CommandsRunOnceInOrder(cfg, port, s, ops, cmds);
    ScriptNeverTooLong(port.cap, cmds);
    NilUnit(History(ops));
    RunAnswered(cfg, port, s, ops, "");
    RepliesAreFrames(cfg, s.app, cmds);
  }

  /** End to end, the way back: over a driver that reports no error and a sink with room, the bytes sent
      decode to exactly the commands with the results of their operations, in order. */
  lemma RepliesTellResults<S>(cfg: Config<S>, port: Port, s: State<seq<S>>, ops: seq<Framing.Op>, cmds: seq<Typed>)
    requires Valid(cfg, |s.app|) && Addressed(cfg, s.app, cmds) && cfg.txLen >= 12
    requires port.canRead && port.mode.TextLine? && s.buf == "" && s.inbox == ""
    requires History(ops) == Joined(Texts(cmds))
    requires forall i :: 0 <= i < |cmds| ==> |Render(cmds[i].id, cmds[i].op)| <= Min(port.cap, 0xFF)
    requires Run(port, s, Listening(cfg), ops).inbox == ""
    requires Healthy(s.link) && s.link.out == "" && Clean(ops)
    requires |FrameBytes(cfg, s.app, cmds)| <= s.link.room
    ensures var l := Run(port, s, Listening(cfg), ops).link;
      DecodeAll(l.out) == Transcript(cfg, s.app, cmds) && !l.status.overflow
  {
    FramesSent(cfg, port, s, ops, cmds);
    FramesDecode(cfg, s.app, cmds);
    NilUnit(FrameBytes(cfg, s.app, cmds));
  }
}
