// The command console: what a token list means, what it does to the memory, and the bytes it answers.

module Commands {
  import opened Basics
  import opened Text
  import opened Streams
  import opened Systems
  import opened Dispatch
  import opened SystemCore

  datatype Entry<!S> = Entry(id: u8, system: Option<System<S>>, name: Option<string>)

  /** The console's configuration. `unset` and `blank` stand for the contents of two local variables
      that the source leaves uninitialized on some paths. */
  datatype Config<!S> = Config(entries: seq<Entry<S>>, argsCount: u8, headerCount: u8, txLen: nat,
                               unset: Result, blank: CmdInfo)

  /** What a console over `n` contexts may be given. */
  ghost predicate Valid<S>(cfg: Config<S>, n: nat) {
    && |cfg.entries| <= 0xFF && cfg.txLen > 0
    && forall i :: 0 <= i < |cfg.entries| && cfg.entries[i].system.Some? ==>
         Fits(Leaves(cfg.entries[i].system.value), n)
  }

  // ---------- Resolving ----------

  /** A system operation. */
  datatype Op =
    | WriteInput(id: u8, val: int32)
    | ReadInput(id: u8)
    | ReadOutput(id: u8)
    | Call(id: u8, args: seq<int32>)

  /** One system operation, or one of the other things a line can ask for; `entry` is a table index. */
  datatype Command =
    | Clear
    | Malformed
    | Help(entry: nat)
    | Dump(entry: nat)
    | Operate(entry: nat, op: Op)
    | NoMember

  function FindById<S>(entries: seq<Entry<S>>, id: u8): (r: Option<nat>)
    ensures r.Some? ==> r.value < |entries| && entries[r.value].id == id
    ensures r.Some? ==> forall i :: 0 <= i < r.value ==> entries[i].id != id
    ensures r.None? ==> forall i :: 0 <= i < |entries| ==> entries[i].id != id
  {
    if entries == [] then None
    else if entries[0].id == id then Some(0)
    else match FindById(entries[1..], id) case None => None case Some(i) => Some(i + 1)
  }

  function FindByName<S>(entries: seq<Entry<S>>, name: string): (r: Option<nat>)
    ensures r.Some? ==> r.value < |entries| && entries[r.value].name == Some(name)
    ensures r.Some? ==> forall i :: 0 <= i < r.value ==> entries[i].name != Some(name)
    ensures r.None? ==> forall i :: 0 <= i < |entries| ==> entries[i].name != Some(name)
  {
    if entries == [] then None
    else if entries[0].name == Some(name) then Some(0)
    else match FindByName(entries[1..], name) case None => None case Some(i) => Some(i + 1)
  }

  /** The first alias from `i` on that spells `name`. `info` carries what earlier look-ups left behind. */
  function FindAlias<S>(sys: System<S>, m: seq<S>, name: string, i: nat, info: CmdInfo): Option<CmdInfo>
    requires Fits(Leaves(sys), |m|) && i <= Count(sys, m, Alias)
    decreases Count(sys, m, Alias) - i
  {
    if i == Count(sys, m, Alias) then None
    else
      var r := GuardedAlias(sys, m, i, info);
      if r.status == OK && r.info.alias == Some(name) then Some(r.info)
      else FindAlias(sys, m, name, i + 1, r.info)
  }

  const NO_INFO := CmdInfo(None, UnknownCmd, 0, false, 0)

  /** `x<j>`, `y<j>` or `f<j>`. */
  function ParseMember(token: string): Option<(CmdType, u8)> {
    if |token| < 2 || !IsDigit(token[1]) then None
    else
      var id := Low8(Strtol(token[1..]).val);
      match token[0]
      case 'x' => Some((InputCmd, id))
      case 'y' => Some((OutputCmd, id))
      case 'f' => Some((FuncCmd, id))
      case _ => None
  }

  /** Scanned arguments; on failure the last one is the zero the scanner returned. */
  datatype Args = Args(vals: seq<int32>, ok: bool)

  /** At most `room` arguments; one token may hold several numbers, as in `1-2`. */
  function ParseArgs(tokens: seq<string>, room: nat): (a: Args)
    ensures |a.vals| <= room
    decreases room
  {
    if tokens == [] || room == 0 then Args([], true)
    else
      var r := Strtol(tokens[0]);
      if r.used == 0 then Args([r.val], false)
      else
        var left := tokens[0][r.used..];
        var a := ParseArgs(if left == "" then tokens[1..] else [left] + tokens[1..], room - 1);
        Args([r.val] + a.vals, a.ok)
  }

  /** The command, and the values its parsing left in the argument buffer. */
  datatype Parsed = Parsed(cmd: Command, scratch: seq<int32>)

  function ByMember<S>(cfg: Config<S>, entry: nat, cmd: CmdType, id: u8, preset: Option<int32>, rest: seq<string>): Parsed {
    match cmd
    case InputCmd =>
      if preset.Some? then Parsed(Operate(entry, WriteInput(id, preset.value)), [])
      else if rest == [] then Parsed(Operate(entry, ReadInput(id)), [])
      else
        var r := Strtol(rest[0]);
        Parsed(if r.used == 0 then Malformed else Operate(entry, WriteInput(id, r.val)), [])
    case OutputCmd => Parsed(Operate(entry, ReadOutput(id)), [])
    case FuncCmd =>
      var a := ParseArgs(rest, cfg.argsCount);
      Parsed(if a.ok then Operate(entry, Call(id, a.vals)) else Malformed, a.vals)
    case UnknownCmd => Parsed(NoMember, [])
  }

  /** The table index of the system that a first token names. */
  function FindSystem<S>(entries: seq<Entry<S>>, name: string): (r: Option<nat>)
    ensures r.Some? ==> r.value < |entries| && entries[r.value].system.Some?
  {
    var i := if |name| >= 2 && name[0] == 's' && IsDigit(name[1])
      then FindById(entries, Low8(Strtol(name[1..]).val)) else FindByName(entries, name);
    if i.Some? && entries[i.value].system.Some? then i else None
  }

  /** What follows a system name: a member, by alias or by number, and its arguments. */
  function ParseOn<S>(cfg: Config<S>, m: seq<S>, entry: nat, sys: System<S>, tokens: seq<string>): Parsed
    requires Fits(Leaves(sys), |m|) && tokens != []
  {
    match FindAlias(sys, m, tokens[0], 0, NO_INFO)
    case Some(info) =>
      ByMember(cfg, entry, info.cmd, info.id, if info.hasPreset then Some(info.preset) else None, tokens[1..])
    case None =>
      match ParseMember(tokens[0])
      case None => Parsed(Malformed, [])
      case Some(p) => ByMember(cfg, entry, p.0, p.1, None, tokens[1..])
  }

  /** The meaning of a token list. */
  function Parse<S>(cfg: Config<S>, m: seq<S>, tokens: seq<string>): Parsed
    requires Valid(cfg, |m|)
  {
    if tokens == [] then Parsed(Malformed, [])
    else if "clear" <= tokens[0] then Parsed(Clear, [])
    else
      var help := tokens[0] != "" && tokens[0][0] == '?';
      var name := if help then tokens[0][1..] else tokens[0];
      if name == "" then Parsed(Malformed, [])
      else
        match FindSystem(cfg.entries, name)
        case None => Parsed(Malformed, [])
        case Some(entry) =>
          if help then Parsed(Help(entry), [])
          else if |tokens| == 1 then Parsed(Dump(entry), [])
          else ParseOn(cfg, m, entry, cfg.entries[entry].system.value, tokens[1..])
  }

  // ---------- Executing ----------

  /** What the console answers: a page of its own, or the result of the command. */
  datatype Reply = ClearScreen | HelpPage(entry: nat) | DumpPage(entry: nat) | Response(result: Result)

  datatype Outcome<S> = Outcome(mem: seq<S>, reply: Reply)

  function SystemOf<S>(cfg: Config<S>, entry: nat): Option<System<S>> {
    if entry < |cfg.entries| then cfg.entries[entry].system else None
  }

  function Respond<S>(e: Effect<S>): Outcome<S> {
    Outcome(e.mem, Response(FromStatus(e.status)))
  }

  function Operation<S>(sys: System<S>, m: seq<S>, op: Op): (o: Outcome<S>)
    requires Fits(Leaves(sys), |m|)
    ensures |o.mem| == |m|
  {
    match op
    case WriteInput(id, v) => Respond(GuardedWrite(sys, m, id, v))
    case ReadInput(id) => Outcome(m, Response(GuardedRead(sys, m, Input, id)))
    case ReadOutput(id) => Outcome(m, Response(GuardedRead(sys, m, Output, id)))
    case Call(id, args) => Respond(GuardedInvoke(sys, m, id, args))
  }

  function Execute<S>(cfg: Config<S>, m: seq<S>, cmd: Command): (o: Outcome<S>)
    requires Valid(cfg, |m|)
    ensures |o.mem| == |m|
  {
    match cmd
    case Clear => Outcome(m, ClearScreen)
    case Malformed => Outcome(m, Response(Err(INVALID_ARGS)))
    case Help(e) => Outcome(m, HelpPage(e))
    case Dump(e) => Outcome(m, DumpPage(e))
    case NoMember => Outcome(m, Response(cfg.unset))
    case Operate(e, op) =>
      if SystemOf(cfg, e).Some? then Operation(SystemOf(cfg, e).value, m, op)
      else Outcome(m, Response(Err(INVALID_ARGS)))
  }

  /** The part of `Execute` that concerns one system. */
  function ExecuteAt<S>(cfg: Config<S>, sys: System<S>, m: seq<S>, cmd: Command): (o: Outcome<S>)
    requires Fits(Leaves(sys), |m|)
  {
    match cmd
    case Operate(_, op) => Operation(sys, m, op)
    case NoMember => Outcome(m, Response(cfg.unset))
    case _ => Outcome(m, Response(Err(INVALID_ARGS)))
  }

  /** The meaning of a command line. */
  function Interpret<S>(cfg: Config<S>, m: seq<S>, text: string): (o: Outcome<S>)
    requires Valid(cfg, |m|)
    ensures |o.mem| == |m|
  {
    Execute(cfg, m, Parse(cfg, m, Tokens(text)).cmd)
  }

  // ---------- Answering ----------

  const STX := "\U{02}"
  const ETX := "\U{03}"
  const CLEAR_SCREEN := "\U{1B}[2J\U{1B}[H"

  /** The length of `s` without trailing white space. */
  function TrimLen(s: string): (n: nat)
    ensures n <= |s|
  {
    if s != "" && IsSpace(s[|s| - 1]) then TrimLen(s[..|s| - 1]) else |s|
  }

  /** The trimmed text; its length goes through an 8-bit variable. */
  function EchoCut(s: string): string {
    Low8IsLess(TrimLen(s));
    s[..Low8(TrimLen(s))]
  }

  /** What a response echoes: the command from its first token on. */
  function Echo(text: string): string {
    EchoCut(DropBlank(text))
  }

  lemma Low8IsLess(n: nat)
    ensures Low8(n) <= n
  {}

  /** One formatted print. */
  function Printed<S>(cfg: Config<S>, text: string): string
    requires cfg.txLen > 0
  {
    Cut(text, cfg.txLen - 1)
  }

  function HeadPieces(echo: string): seq<string> {
    [STX, "\n"] + (if echo == "" then [] else [echo, "\n"])
  }

  function ResultPieces<S>(cfg: Config<S>, r: Result): seq<string>
    requires cfg.txLen > 0
  {
    match r
    case Value(v) => [Printed(cfg, Numeral(v))]
    case Err(e) => ["E", Printed(cfg, Numeral(e))]
  }

  function ResponsePieces<S>(cfg: Config<S>, echo: string, r: Result): seq<string>
    requires cfg.txLen > 0
  {
    HeadPieces(echo) + ResultPieces(cfg, r) + ["\n", ETX]
  }

  /** Columns `j` and following of the header row. */
  function HeaderCells<S>(cfg: Config<S>, j: nat): seq<string>
    requires cfg.txLen > 0 && j <= cfg.headerCount
    decreases cfg.headerCount - j
  {
    if j == cfg.headerCount then [] else [Printed(cfg, "\t" + Numeral(j))] + HeaderCells(cfg, j + 1)
  }

  /** Cells `j` and following of a system's input or output row. */
  function Cells<S>(cfg: Config<S>, sys: System<S>, m: seq<S>, k: Kind, j: nat): seq<string>
    requires cfg.txLen > 0 && j <= cfg.headerCount && Fits(Leaves(sys), |m|)
    decreases cfg.headerCount - j
  {
    if j == cfg.headerCount then []
    else ["\t"] + ResultPieces(cfg, GuardedRead(sys, m, k, j)) + Cells(cfg, sys, m, k, j + 1)
  }

  function Row<S>(cfg: Config<S>, id: u8, sys: System<S>, m: seq<S>, k: Kind): seq<string>
    requires cfg.txLen > 0 && Fits(Leaves(sys), |m|)
  {
    [Printed(cfg, "s" + Numeral(id) + (if k.Input? then ".x" else ".y"))] + Cells(cfg, sys, m, k, 0) + ["\n"]
  }

  ghost predicate Dumpable<S>(entries: seq<Entry<S>>, n: nat) {
    forall i :: 0 <= i < |entries| ==> entries[i].system.Some? && Fits(Leaves(entries[i].system.value), n)
  }

  function Rows<S>(cfg: Config<S>, entries: seq<Entry<S>>, m: seq<S>): seq<string>
    requires cfg.txLen > 0 && Dumpable(entries, |m|)
  {
    if entries == [] then []
    else
      var e := entries[0];
      Row(cfg, e.id, e.system.value, m, Input) + Row(cfg, e.id, e.system.value, m, Output) + Rows(cfg, entries[1..], m)
  }

  /** The lines of a dump between its head and its end mark. */
  function DumpBody<S>(cfg: Config<S>, entries: seq<Entry<S>>, m: seq<S>): seq<string>
    requires cfg.txLen > 0 && Dumpable(entries, |m|)
  {
    [Printed(cfg, "sys")] + HeaderCells(cfg, 0) + ["\n"] + Rows(cfg, entries, m)
  }

  function DumpPieces<S>(cfg: Config<S>, echo: string, entries: seq<Entry<S>>, m: seq<S>): seq<string>
    requires cfg.txLen > 0 && Dumpable(entries, |m|)
  {
    HeadPieces(echo) + DumpBody(cfg, entries, m) + [ETX]
  }

  /** The opening bracket, the member an alias stands for; anything but an input or a function counts as an output. */
  function HelpMember(info: CmdInfo): string {
    (match info.cmd case FuncCmd => "[f" case InputCmd => "[x" case _ => "[y") + Numeral(info.id)
  }

  /** How the help page prints one alias. */
  function AliasPieces<S>(cfg: Config<S>, info: CmdInfo): seq<string>
    requires cfg.txLen > 0
  {
    [Printed(cfg, "- ")]
    + (if info.alias.Some? then [Printed(cfg, info.alias.value + " ")] else [])
    + [Printed(cfg, HelpMember(info))]
    + (if info.hasPreset then [Printed(cfg, " = " + Numeral(info.preset))] else [])
    + [Printed(cfg, "]\n")]
  }

  /** Aliases `i` and following; the help page asks the driver without the guard. */
  function AliasLines<S>(cfg: Config<S>, sys: System<S>, m: seq<S>, i: nat, info: CmdInfo): seq<string>
    requires cfg.txLen > 0 && Fits(Leaves(sys), |m|) && i <= Count(sys, m, Alias)
    decreases Count(sys, m, Alias) - i
  {
    if i == Count(sys, m, Alias) then []
    else
      var next := GetAlias(sys, m, i, info).info;
      AliasPieces(cfg, next) + AliasLines(cfg, sys, m, i + 1, next)
  }

  function HelpPieces<S>(cfg: Config<S>, echo: string, e: Entry<S>, m: seq<S>): seq<string>
    requires cfg.txLen > 0 && e.system.Some? && Fits(Leaves(e.system.value), |m|)
  {
    HeadPieces(echo)
    + (if e.name.Some? then [Printed(cfg, e.name.value + " ")] else [])
    + [Printed(cfg, "[s" + Numeral(e.id) + "]\n")]
    + AliasLines(cfg, e.system.value, m, 0, cfg.blank)
    + [ETX]
  }

  /** The writes with which a reply is sent. */
  function Pieces<S>(cfg: Config<S>, m: seq<S>, echo: string, reply: Reply): seq<string>
    requires Valid(cfg, |m|)
  {
    match reply
    case ClearScreen => [Printed(cfg, CLEAR_SCREEN)]
    case Response(r) => ResponsePieces(cfg, echo, r)
    case HelpPage(e) => if SystemOf(cfg, e).Some? then HelpPieces(cfg, echo, cfg.entries[e], m) else []
    case DumpPage(e) => if SystemOf(cfg, e).Some? then DumpPieces(cfg, echo, [cfg.entries[e]], m) else []
  }

  /** Answering a token list: the memory, and what the stream sees. */
  function Answer<S>(cfg: Config<S>, m: seq<S>, link: Link, echo: string, tokens: seq<string>): (seq<S>, Sent)
    requires Valid(cfg, |m|)
  {
    var o := Execute(cfg, m, Parse(cfg, m, tokens).cmd);
    (o.mem, SendAll(link, Pieces(cfg, o.mem, echo, o.reply)))
  }

  /** Processing one command line. */
  function Process<S>(cfg: Config<S>, m: seq<S>, link: Link, text: string): (seq<S>, Sent)
    requires Valid(cfg, |m|)
  {
    Answer(cfg, m, link, Echo(text), Tokens(text))
  }
}
