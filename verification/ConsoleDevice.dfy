// The console object: position-walking loops and step-by-step output, against the specification in Commands.

module ConsoleDevice {
  import opened Basics
  import opened Text
  import opened Streams
  import opened Systems
  import opened Dispatch
  import opened SystemCore
  import opened Commands
  import opened StreamDevice

  // ---------- Walking over the text: a pointer is the suffix it points at ----------

  method SkipDelimiters(text: string) returns (str: string)
    ensures str == DropBlank(text)
  {
    str := text;
    while str != "" && IsDelimiter(str[0])
      decreases |str|
      invariant DropBlank(str) == DropBlank(text)
    {
      str := str[1..];
    }
  }

  method FindTokenEnd(text: string) returns (str: string)
    ensures str == text[TokenLen(text)..]
  {
    str := text;
    ghost var n := 0;
    while str != "" && !IsDelimiter(str[0])
      decreases |str|
      invariant 0 <= n <= |text| && str == text[n..] && n + TokenLen(str) == TokenLen(text)
    {
      str := str[1..];
      n := n + 1;
    }
  }

  /** The trimmed length as 16 bits hold it; 0 for a NULL pointer. */
  method CommandLength(str: Option<string>) returns (len: nat)
    ensures len == if str.None? then 0 else Low16(TrimLen(str.value))
  {
    if str.None? {
      return 0;
    }
    var s := str.value;
    len := |s|;
    assert s[..len] == s;
    while len > 0 && IsSpace(s[len - 1])
      invariant len <= |s| && TrimLen(s[..len]) == TrimLen(s)
    {
      assert s[..len][..len - 1] == s[..len - 1];
      len := len - 1;
    }
    Low8OfLow16(len);
    len := Low16(len);
  }

  /** What is echoed for a command, or for a NULL pointer. */
  function EchoOf(str: Option<string>): string {
    if str.None? then "" else EchoCut(str.value)
  }

  lemma EchoLength(str: Option<string>)
    ensures var len := Low8(if str.None? then 0 else Low16(TrimLen(str.value)));
      && |EchoOf(str)| == len
      && (str.Some? ==> len <= |str.value| && EchoOf(str) == str.value[..len])
  {
    if str.Some? {
      Low8OfLow16(TrimLen(str.value));
      Low8IsLess(TrimLen(str.value));
    }
  }

  /** The C comparison: the first characters agree, and the entry's string ends there. */
  predicate Spells(entry: Option<string>, token: string) {
    entry.Some? && token <= entry.value && |entry.value| == |token|
  }

  lemma SpellsExactly(entry: Option<string>, token: string)
    ensures Spells(entry, token) <==> entry == Some(token)
  {
    if Spells(entry, token) {
      assert token == entry.value;
      assert entry == Some(token);
    }
  }

  /** A position at a token, and what follows the token. */
  lemma AtToken(r: string)
    requires r == "" || !IsDelimiter(r[0])
    ensures r == "" ==> Tokens(r) == []
    ensures r != "" ==>
      var n := TokenLen(r);
      && n > 0 && Solid(r[..n]) && Breaks(r[n..])
      && Tokens(r) == [r[..n]] + Tokens(DropBlank(r[n..]))
  {
    if r != "" {
      var t, rest := TokenLenSplits(r);
      TokensCons(t, rest);
      TokensDropBlank(rest);
    }
  }

  /** Scanning inside a token: what is left is the rest of the token, or what follows it. */
  lemma AfterNumber(t: string, rest: string)
    requires t != "" && Solid(t) && Breaks(rest)
    ensures var k := Strtol(t + rest).used;
      && Strtol(t + rest) == Strtol(t)
      && Tokens((t + rest)[k..]) == (if t[k..] == "" then [] else [t[k..]]) + Tokens(rest)
  {
    StrtolLocal(t, rest);
    var k := Strtol(t).used;
    assert (t + rest)[k..] == t[k..] + rest;
    if t[k..] == "" {
      NilUnit(rest);
      NilUnit(Tokens(rest));
    } else {
      SolidSuffix(t, k);
      TokensCons(t[k..], rest);
    }
  }

  lemma SolidSuffix(t: string, k: nat)
    requires Solid(t) && k <= |t|
    ensures Solid(t[k..])
  {}

  // ---------- What the pointer tests see is decided by the token ----------

  lemma {:induction false} SolidPrefix(p: string, s: string)
    requires Solid(p) && p <= s
    ensures |p| <= TokenLen(s)
  {
    if p != "" {
      assert p[0] == s[0] && p[1..] <= s[1..];
      SolidPrefix(p[1..], s[1..]);
    }
  }

  lemma ClearInToken(t: string, rest: string)
    requires Solid(t) && Breaks(rest)
    ensures "clear" <= t + rest <==> "clear" <= t
  {
    if "clear" <= t + rest {
      SolidPrefix("clear", t + rest);
      TokenLenOf(t, rest);
      assert (t + rest)[..5] == t[..5];
    }
  }

  /** A letter followed by a digit, and the number that starts there. */
  lemma NumberedLocal(t: string, rest: string)
    requires t != "" && Solid(t) && Breaks(rest)
    ensures var all := t + rest;
      && all[0] == t[0]
      && (|all| >= 2 && IsDigit(all[1]) <==> |t| >= 2 && IsDigit(t[1]))
      && (|t| >= 2 ==> Strtol(all[1..]) == Strtol(t[1..]))
      && ParseMember(all) == ParseMember(t)
  {
    BreakIsNotDigit(rest);
    var all := t + rest;
    if |t| >= 2 {
      assert all[1] == t[1] && all[1..] == t[1..] + rest;
      SolidSuffix(t, 1);
      StrtolLocal(t[1..], rest);
    } else {
      assert |all| >= 2 ==> all[1] == rest[0];
    }
  }

  /** The number scanned at a pointer is that of the token there. */
  lemma FirstNumber(token: string)
    requires token == "" || !IsDelimiter(token[0])
    ensures token == "" <==> Tokens(token) == []
    ensures token != "" ==> Strtol(Tokens(token)[0]) == Strtol(token)
  {
    AtToken(token);
    if token != "" {
      var t, rest := TokenLenSplits(token);
      StrtolLocal(t, rest);
    }
  }

  /** The first token and the pointers into it, with or without a leading question mark. */
  lemma FirstPointers(start: string)
    requires start == "" || !IsDelimiter(start[0])
    ensures start == "" <==> Tokens(start) == []
    ensures start != "" ==>
      var ts := Tokens(start);
      var help := start[0] == '?';
      var token := if help then start[1..] else start;
      var k := TokenLen(token);
      && ts[0] != "" && ts[0][0] == start[0]
      && ("clear" <= start <==> "clear" <= ts[0])
      && token[..k] == (if help then ts[0][1..] else ts[0])
      && Solid(token[..k]) && Breaks(token[k..])
      && ts[1..] == Tokens(DropBlank(token[k..]))
      && (DropBlank(token[k..]) == "" <==> |ts| == 1)
  {
    AtToken(start);
    if start != "" {
      var t, rest := TokenLenSplits(start);
      ClearInToken(t, rest);
      var t', rest' := TokenLenSplits(if start[0] == '?' then start[1..] else start);
      assert rest' == rest;
      AtToken(DropBlank(rest));
    }
  }

  function ParseNamed<S>(cfg: Config<S>, m: seq<S>, entry: nat, help: bool, next: string): Parsed
    requires Valid(cfg, |m|) && entry < |cfg.entries| && cfg.entries[entry].system.Some?
    requires next != "" ==> !IsDelimiter(next[0])
  {
    if help then Parsed(Help(entry), [])
    else if next == "" then Parsed(Dump(entry), [])
    else
      AtToken(next);
      ParseOn(cfg, m, entry, cfg.entries[entry].system.value, Tokens(next))
  }

  /** The meaning of a line once its first token is known to name a system, or not to. */
  lemma ParseFirst<S>(cfg: Config<S>, m: seq<S>, start: string, help: bool, name: string, next: string)
    requires Valid(cfg, |m|) && start != "" && !IsDelimiter(start[0]) && !("clear" <= start)
    requires help == (start[0] == '?') && name != ""
    requires var token := if help then start[1..] else start;
      name == token[..TokenLen(token)] && next == DropBlank(token[TokenLen(token)..])
    ensures Parse(cfg, m, Tokens(start)) ==
      match FindSystem(cfg.entries, name)
      case None => Parsed(Malformed, [])
      case Some(entry) => ParseNamed(cfg, m, entry, help, next)
  {
    FirstPointers(start);
  }

  /** What follows a system name can only operate on that system, or fail. */
  lemma ParseOnStays<S>(cfg: Config<S>, m: seq<S>, entry: nat, sys: System<S>, tokens: seq<string>)
    requires Fits(Leaves(sys), |m|) && tokens != []
    ensures var cmd := ParseOn(cfg, m, entry, sys, tokens).cmd;
      cmd.Malformed? || cmd.NoMember? || (cmd.Operate? && cmd.entry == entry)
  {}

  lemma ExecuteIsAt<S>(cfg: Config<S>, m: seq<S>, entry: nat, sys: System<S>, tokens: seq<string>)
    requires Valid(cfg, |m|) && SystemOf(cfg, entry) == Some(sys) && tokens != []
    ensures Fits(Leaves(sys), |m|)
    ensures var cmd := ParseOn(cfg, m, entry, sys, tokens).cmd;
      Execute(cfg, m, cmd) == ExecuteAt(cfg, sys, m, cmd)
  {
    ParseOnStays(cfg, m, entry, sys, tokens);
  }

  // ---------- The console ----------

  class Console<S> {
    const stream: Stream
    const cfg: Config<S>
    const mem: array<S>
    const argsBuffer: array<int32>

    constructor (stream: Stream, cfg: Config<S>, mem: array<S>, argsBuffer: array<int32>)
      ensures this.stream == stream && this.cfg == cfg && this.mem == mem && this.argsBuffer == argsBuffer
    {
      this.stream, this.cfg, this.mem, this.argsBuffer := stream, cfg, mem, argsBuffer;
    }

    ghost predicate Ready()
      reads this, stream
    {
      Valid(cfg, mem.Length) && CanSend() && CanCall()
    }

    ghost predicate CanSend()
      reads this, stream
    {
      stream.Valid() && cfg.txLen == stream.txLen
    }

    ghost predicate CanCall() {
      && argsBuffer.Length == cfg.argsCount
      && (mem as object) != argsBuffer && (mem as object) != stream.rxBuffer && (argsBuffer as object) != stream.rxBuffer
    }

    // ---------- Resolving ----------

    method FindSystemIndexById(id: u8) returns (r: int)
      ensures match FindById(cfg.entries, id) case Some(i) => r == i case None => r == -1
    {
      var i := 0;
      assert cfg.entries[0..] == cfg.entries;
      while i < |cfg.entries|
        invariant 0 <= i <= |cfg.entries|
        invariant match FindById(cfg.entries[i..], id)
          case Some(j) => FindById(cfg.entries, id) == Some(i + j)
          case None => FindById(cfg.entries, id) == None
      {
        if cfg.entries[i].id == id {
          return i;
        }
        assert cfg.entries[i..][1..] == cfg.entries[i + 1..];
        i := i + 1;
      }
      return -1;
    }

    /** The name starts with the token, and ends where the token ends. */
    method FindSystemIndexByName(name: string) returns (r: int)
      ensures match FindByName(cfg.entries, name) case Some(i) => r == i case None => r == -1
    {
      var i := 0;
      assert cfg.entries[0..] == cfg.entries;
      while i < |cfg.entries|
        invariant 0 <= i <= |cfg.entries|
        invariant match FindByName(cfg.entries[i..], name)
          case Some(j) => FindByName(cfg.entries, name) == Some(i + j)
          case None => FindByName(cfg.entries, name) == None
      {
        var entry := cfg.entries[i].name;
        SpellsExactly(entry, name);
        if Spells(entry, name) {
          return i;
        }
        assert cfg.entries[i..][1..] == cfg.entries[i + 1..];
        i := i + 1;
      }
      return -1;
    }

    /** Searches the aliases; `info` is overwritten by every look-up, successful or not. */
    method FindCommandByAlias(sys: System<S>, name: string) returns (found: bool, info: CmdInfo)
      requires Fits(Leaves(sys), mem.Length)
      ensures match FindAlias(sys, mem[..], name, 0, NO_INFO) case Some(i) => found && info == i case None => !found
    {
      var count := DriverCount(sys, mem, Alias);
      info := NO_INFO;
      var i := 0;
      while i < count
        invariant 0 <= i <= count
        invariant FindAlias(sys, mem[..], name, i, info) == FindAlias(sys, mem[..], name, 0, NO_INFO)
      {
        var st;
        info, st := SysAlias(sys, mem, i, info);
        SpellsExactly(info.alias, name);
        if st == OK && Spells(info.alias, name) {
          return true, info;
        }
        i := i + 1;
      }
      return false, info;
    }

    /** Reads the member that `text` points at into `info`, whatever an alias search left there. */
    method ParseMemberToken(text: string, info: CmdInfo) returns (ok: bool, r: CmdInfo)
      ensures match ParseMember(text)
        case Some(p) => ok && r.cmd == p.0 && r.id == p.1 && !r.hasPreset
        case None => !ok
    {
      r := info;
      if |text| < 2 || !IsDigit(text[1]) {
        return false, r;
      }
      match text[0] {
        case 'x' => r := r.(cmd := InputCmd);
        case 'y' => r := r.(cmd := OutputCmd);
        case 'f' => r := r.(cmd := FuncCmd);
        case _ => return false, r;
      }
      var scan := Strtol(text[1..]);
      r := r.(id := Low8(scan.val), hasPreset := false);
      return true, r;
    }

    /** Fills the argument buffer from the token that `text` points at. */
    method ReadArguments(text: string) returns (argc: nat, ok: bool)
      requires argsBuffer.Length == cfg.argsCount && (text != "" ==> !IsDelimiter(text[0]))
      modifies argsBuffer
      ensures var a := ParseArgs(Tokens(text), cfg.argsCount);
        && ok == a.ok && argc == |a.vals| && argc <= argsBuffer.Length
        && argsBuffer[..] == Overwrite(old(argsBuffer[..]), a.vals)
    {
      ghost var before, vals, room := argsBuffer[..], [], cfg.argsCount;
      ghost var goal := ParseArgs(Tokens(text), room);
      NilUnit(goal.vals);
      assert Overwrite(before, []) == before;
      var token := text;
      argc := 0;
      while token != "" && argc < cfg.argsCount
        invariant argc == |vals| && argc + room == cfg.argsCount && room >= 0
        invariant token != "" ==> !IsDelimiter(token[0])
        invariant argsBuffer[..] == Overwrite(before, vals)
        invariant Continues(goal, vals, ParseArgs(Tokens(token), room))
        decreases room
      {
        var scan := Strtol(token);
        argsBuffer[argc] := scan.val;
        argc := argc + 1;
        PutAt(vals, before, scan.val);
        room := room - 1;
        ArgsTurn(goal, vals, token, room);
        vals := vals + [scan.val];
        if scan.used == 0 {
          return argc, false;
        }
        token := SkipDelimiters(token[scan.used..]);
      }
      NilUnit(vals);
      return argc, true;
    }

    // ---------- Executing ----------

    /** The member step and the execution of a command; `token` points at the member. */
    method ExecuteMember(ghost entry: nat, sys: System<S>, token: string) returns (res: Result)
      requires CanCall() && Fits(Leaves(sys), mem.Length) && token != "" && !IsDelimiter(token[0])
      modifies mem, argsBuffer
      ensures var p := ParseOn(cfg, old(mem[..]), entry, sys, Tokens(token));
        && ExecuteAt(cfg, sys, old(mem[..]), p.cmd) == Outcome(mem[..], Response(res))
        && argsBuffer[..] == Overwrite(old(argsBuffer[..]), p.scratch)
    {
      AtToken(token);
      var end := FindTokenEnd(token);
      var name := token[..|token| - |end|];
      assert token == name + end;
      assert Overwrite(argsBuffer[..], []) == argsBuffer[..];
      var found, info := FindCommandByAlias(sys, name);
      if !found {
        var ok;
        NumberedLocal(name, end);
        ok, info := ParseMemberToken(token, info);
        if !ok {
          return Err(INVALID_ARGS);
        }
      }
      var next := SkipDelimiters(end);
      assert Tokens(token)[1..] == Tokens(next);
      res := ExecuteInfo(entry, sys, info, next);
    }

    /** The three cases of a resolved member; `token` points at what follows it. */
    method ExecuteInfo(ghost entry: nat, sys: System<S>, info: CmdInfo, token: string) returns (res: Result)
      requires CanCall() && Fits(Leaves(sys), mem.Length) && (token != "" ==> !IsDelimiter(token[0]))
      modifies mem, argsBuffer
      ensures var p := ByMember(cfg, entry, info.cmd, info.id, if info.hasPreset then Some(info.preset) else None, Tokens(token));
        && ExecuteAt(cfg, sys, old(mem[..]), p.cmd) == Outcome(mem[..], Response(res))
        && argsBuffer[..] == Overwrite(old(argsBuffer[..]), p.scratch)
    {
      assert Overwrite(argsBuffer[..], []) == argsBuffer[..];
      res := cfg.unset;
      if info.cmd == InputCmd {
        res := ExecuteInput(entry, sys, info, token);
      } else if info.cmd == OutputCmd {
        res := SysRead(sys, mem, Output, info.id);
      } else if info.cmd == FuncCmd {
        res := ExecuteCall(entry, sys, info, token);
      }
    }

    method ExecuteInput(ghost entry: nat, sys: System<S>, info: CmdInfo, token: string) returns (res: Result)
      requires CanCall() && Fits(Leaves(sys), mem.Length) && (token != "" ==> !IsDelimiter(token[0]))
      requires info.cmd == InputCmd
      modifies mem
      ensures var p := ByMember(cfg, entry, InputCmd, info.id, if info.hasPreset then Some(info.preset) else None, Tokens(token));
        ExecuteAt(cfg, sys, old(mem[..]), p.cmd) == Outcome(mem[..], Response(res)) && p.scratch == []
    {
      if info.hasPreset {
        var st := SysWrite(sys, mem, info.id, info.preset);
        return FromStatus(st);
      }
      FirstNumber(token);
      if token != "" {
        var scan := Strtol(token);
        if scan.used == 0 {
          return Err(INVALID_ARGS);
        }
        var st := SysWrite(sys, mem, info.id, scan.val);
        return FromStatus(st);
      }
      res := SysRead(sys, mem, Input, info.id);
    }

    method ExecuteCall(ghost entry: nat, sys: System<S>, info: CmdInfo, token: string) returns (res: Result)
      requires CanCall() && Fits(Leaves(sys), mem.Length) && (token != "" ==> !IsDelimiter(token[0]))
      modifies mem, argsBuffer
      ensures var p := ByMember(cfg, entry, FuncCmd, info.id, None, Tokens(token));
        && ExecuteAt(cfg, sys, old(mem[..]), p.cmd) == Outcome(mem[..], Response(res))
        && argsBuffer[..] == Overwrite(old(argsBuffer[..]), p.scratch)
    {
      var argc, ok := ReadArguments(token);
      if !ok {
        return Err(INVALID_ARGS);
      }
      ghost var a := ParseArgs(Tokens(token), cfg.argsCount);
      assert argsBuffer[..argc] == a.vals;
      res := CallWith(sys, info.id, argc);
    }

    /** The call with the first `argc` values of the argument buffer. */
    method CallWith(sys: System<S>, id: u8, argc: nat) returns (res: Result)
      requires CanCall() && Fits(Leaves(sys), mem.Length) && argc <= argsBuffer.Length
      modifies mem
      ensures Operation(sys, old(mem[..]), Call(id, argsBuffer[..argc])) == Outcome(mem[..], Response(res))
    {
      var st := SysInvoke(sys, mem, id, argsBuffer[..argc]);
      res := FromStatus(st);
    }

    /** One command line: it is interpreted token by token, and its reply is sent. */
    method ProcessCommand(cmd: string) returns (st: Status)
      requires Ready()
      modifies mem, argsBuffer, stream`status, stream.driver`outbox, stream.driver`room
      ensures (mem[..], Sent(stream.Side(), st)) == Process(cfg, old(mem[..]), old(stream.Side()), cmd)
      ensures argsBuffer[..] == Overwrite(old(argsBuffer[..]), Parse(cfg, old(mem[..]), Tokens(cmd)).scratch)
    {
      var start := SkipDelimiters(cmd);
      TokensDropBlank(cmd);
      if "clear" <= start {
        FirstPointers(start);
        assert Overwrite(argsBuffer[..], []) == argsBuffer[..];
        NilUnit([Printed(cfg, CLEAR_SCREEN)]);
        st := PutFormatted(CLEAR_SCREEN, SendAll(stream.Side(), [Printed(cfg, CLEAR_SCREEN)]), []);
      } else {
        st := ProcessLine(start);
      }
    }

    /** A line other than `clear`; `start` points at its first token. */
    method ProcessLine(start: string) returns (st: Status)
      requires Ready() && !("clear" <= start) && (start != "" ==> !IsDelimiter(start[0]))
      modifies mem, argsBuffer, stream`status, stream.driver`outbox, stream.driver`room
      ensures (mem[..], Sent(stream.Side(), st)) == Answer(cfg, old(mem[..]), old(stream.Side()), EchoCut(start), Tokens(start))
      ensures argsBuffer[..] == Overwrite(old(argsBuffer[..]), Parse(cfg, old(mem[..]), Tokens(start)).scratch)
    {
      FirstPointers(start);
      var help := start != "" && start[0] == '?';
      var token := if help then start[1..] else start;
      var end := FindTokenEnd(token);
      var name := token[..|token| - |end|];
      if name == "" {
        assert Parse(cfg, mem[..], Tokens(start)) == Parsed(Malformed, []);
        st := Refuse(start);
        return;
      }
      var next := SkipDelimiters(end);
      ParseFirst(cfg, mem[..], start, help, name, next);
      st := ProcessSystem(start, help, token, name, next);
    }

    /** The steps after the first token has been cut out. */
    method ProcessSystem(start: string, help: bool, token: string, name: string, next: string) returns (st: Status)
      requires Ready() && (next != "" ==> !IsDelimiter(next[0]))
      requires name != "" && Solid(name) && |name| <= |token| && token[..|name|] == name && Breaks(token[|name|..])
      modifies mem, argsBuffer, stream`status, stream.driver`outbox, stream.driver`room
      ensures var p := (match FindSystem(cfg.entries, name)
          case None => Parsed(Malformed, [])
          case Some(entry) => ParseNamed(cfg, old(mem[..]), entry, help, next));
        var o := Execute(cfg, old(mem[..]), p.cmd);
        && mem[..] == o.mem
        && Sent(stream.Side(), st) == SendAll(old(stream.Side()), Pieces(cfg, o.mem, EchoCut(start), o.reply))
        && argsBuffer[..] == Overwrite(old(argsBuffer[..]), p.scratch)
    {
      var index := FindSystemIndex(token, name);
      if index < 0 || cfg.entries[index].system.None? {
        st := Refuse(start);
        return;
      }
      st := ProcessNamed(start, help, index, next);
    }

    /** The answer to a line that means nothing. */
    method Refuse(start: string) returns (st: Status)
      requires Ready()
      modifies stream`status, stream.driver`outbox, stream.driver`room
      ensures var o := Execute(cfg, mem[..], Malformed);
        o.mem == mem[..] && Sent(stream.Side(), st) == SendAll(old(stream.Side()), Pieces(cfg, o.mem, EchoCut(start), o.reply))
      ensures Overwrite(argsBuffer[..], []) == argsBuffer[..]
    {
      st := SendResponse(start, Err(INVALID_ARGS));
    }

    /** The steps after the system has been found; `next` points at what follows its name. */
    method ProcessNamed(start: string, help: bool, index: nat, next: string) returns (st: Status)
      requires Ready() && index < |cfg.entries| && cfg.entries[index].system.Some?
      requires next != "" ==> !IsDelimiter(next[0])
      modifies mem, argsBuffer, stream`status, stream.driver`outbox, stream.driver`room
      ensures var p := ParseNamed(cfg, old(mem[..]), index, help, next);
        var o := Execute(cfg, old(mem[..]), p.cmd);
        && mem[..] == o.mem
        && Sent(stream.Side(), st) == SendAll(old(stream.Side()), Pieces(cfg, o.mem, EchoCut(start), o.reply))
        && argsBuffer[..] == Overwrite(old(argsBuffer[..]), p.scratch)
    {
      assert Overwrite(argsBuffer[..], []) == argsBuffer[..];
      var sys := cfg.entries[index].system.value;
      if help {
        st := SendHelp(start, cfg.entries[index]);
      } else if next == "" {
        st := SendDump(Some(start), [cfg.entries[index]]);
      } else {
        ExecuteIsAt(cfg, mem[..], index, sys, Tokens(next));
        var res := ExecuteMember(index, sys, next);
        st := SendResponse(start, res);
      }
    }

    /** `s<ID>` or a name; `token` points at it. */
    method FindSystemIndex(token: string, name: string) returns (r: int)
      requires name != "" && Solid(name) && |name| <= |token| && token[..|name|] == name && Breaks(token[|name|..])
      ensures match FindSystem(cfg.entries, name)
        case Some(i) => r == i
        case None => r < 0 || (r < |cfg.entries| && cfg.entries[r].system.None?)
    {
      NumberedLocal(name, token[|name|..]);
      assert token == name + token[|name|..];
      if |token| >= 2 && token[0] == 's' && IsDigit(token[1]) {
        var scan := Strtol(token[1..]);
        r := FindSystemIndexById(Low8(scan.val));
      } else {
        r := FindSystemIndexByName(name);
      }
    }

    // ---------- Output: each step either goes on or ends with the status of the whole ----------

    method Put(text: string, ghost goal: Sent, ghost rest: seq<string>) returns (st: Status)
      requires goal == SendAll(stream.Side(), [text] + rest)
      modifies stream`status, stream.driver`outbox, stream.driver`room
      ensures if st == OK then goal == SendAll(stream.Side(), rest) else goal == Sent(stream.Side(), st)
    {
      assert ([text] + rest)[1..] == rest;
      st := stream.Write(text);
    }

    method PutFormatted(text: string, ghost goal: Sent, ghost rest: seq<string>) returns (st: Status)
      requires CanSend() && text != ""
      requires goal == SendAll(stream.Side(), [Printed(cfg, text)] + rest)
      modifies stream`status, stream.driver`outbox, stream.driver`room
      ensures if st == OK then goal == SendAll(stream.Side(), rest) else goal == Sent(stream.Side(), st)
    {
      assert ([Printed(cfg, text)] + rest)[1..] == rest;
      st := stream.Printf(text);
    }

    /** The opening of a frame: start mark and trimmed echo. */
    method SendHead(echo: Option<string>, ghost goal: Sent, ghost rest: seq<string>) returns (st: Status)
      requires CanSend() && goal == SendAll(stream.Side(), HeadPieces(EchoOf(echo)) + rest)
      modifies stream`status, stream.driver`outbox, stream.driver`room
      ensures if st == OK then goal == SendAll(stream.Side(), rest) else goal == Sent(stream.Side(), st)
    {
      ghost var e := EchoOf(echo);
      ghost var mid := if e == "" then rest else [e, "\n"] + rest;
      assert HeadPieces(e) + rest == [STX] + (["\n"] + mid);
      st := Put(STX, goal, ["\n"] + mid);
      if st != OK {
        return;
      }
      st := Put("\n", goal, mid);
      if st != OK {
        return;
      }
      var full := CommandLength(echo);
      var len := Low8(full);
      EchoLength(echo);
      if len > 0 {
        assert mid == [e] + (["\n"] + rest);
        st := Put(echo.value[..len], goal, ["\n"] + rest);
        if st != OK {
          return;
        }
        st := Put("\n", goal, rest);
      }
    }

    method SendResult(r: Result, ghost goal: Sent, ghost rest: seq<string>) returns (st: Status)
      requires CanSend() && goal == SendAll(stream.Side(), ResultPieces(cfg, r) + rest)
      modifies stream`status, stream.driver`outbox, stream.driver`room
      ensures if st == OK then goal == SendAll(stream.Side(), rest) else goal == Sent(stream.Side(), st)
    {
      var val := match r case Value(v) => v case Err(e) => e;
      if r.Err? {
        assert ResultPieces(cfg, r) + rest == ["E"] + ([Printed(cfg, Numeral(val))] + rest);
        st := Put("E", goal, [Printed(cfg, Numeral(val))] + rest);
        if st != OK {
          return;
        }
      }
      st := PutFormatted(Numeral(val), goal, rest);
    }

    method SendResponse(echo: string, r: Result) returns (st: Status)
      requires CanSend()
      modifies stream`status, stream.driver`outbox, stream.driver`room
      ensures Sent(stream.Side(), st) == SendAll(old(stream.Side()), ResponsePieces(cfg, EchoCut(echo), r))
    {
      ghost var goal := SendAll(stream.Side(), ResponsePieces(cfg, EchoCut(echo), r));
      ghost var tail := ["\n"] + [ETX];
      assert tail == ["\n", ETX];
      Assoc(HeadPieces(EchoCut(echo)), ResultPieces(cfg, r), tail);
      st := SendHead(Some(echo), goal, ResultPieces(cfg, r) + tail);
      if st != OK {
        return;
      }
      st := SendResult(r, goal, tail);
      if st != OK {
        return;
      }
      st := Put("\n", goal, [ETX]);
      if st != OK {
        return;
      }
      NilUnit([ETX]);
      st := Put(ETX, goal, []);
    }

    /** The tab-separated cells of one row. */
    method SendCells(sys: System<S>, k: Kind, ghost goal: Sent, ghost rest: seq<string>) returns (st: Status)
      requires CanSend() && Fits(Leaves(sys), mem.Length)
      requires goal == SendAll(stream.Side(), Cells(cfg, sys, mem[..], k, 0) + rest)
      modifies stream`status, stream.driver`outbox, stream.driver`room
      ensures if st == OK then goal == SendAll(stream.Side(), rest) else goal == Sent(stream.Side(), st)
    {
      ghost var m := mem[..];
      st := OK;
      var i := 0;
      while i < cfg.headerCount
        invariant 0 <= i <= cfg.headerCount && st == OK && CanSend() && mem[..] == m
        invariant goal == SendAll(stream.Side(), Cells(cfg, sys, m, k, i) + rest)
      {
        ghost var cells := Cells(cfg, sys, m, k, i + 1) + rest;
        ghost var res := ResultPieces(cfg, GuardedRead(sys, m, k, i));
        CellsStep(cfg, sys, m, k, i, rest);
        st := Put("\t", goal, res + cells);
        if st != OK {
          return;
        }
        var r := SysRead(sys, mem, k, i);
        st := SendResult(r, goal, cells);
        if st != OK {
          return;
        }
        i := i + 1;
      }
      NilUnit(rest);
    }

    method SendRow(id: u8, sys: System<S>, k: Kind, ghost goal: Sent, ghost rest: seq<string>) returns (st: Status)
      requires CanSend() && Fits(Leaves(sys), mem.Length)
      requires goal == SendAll(stream.Side(), Row(cfg, id, sys, mem[..], k) + rest)
      modifies stream`status, stream.driver`outbox, stream.driver`room
      ensures if st == OK then goal == SendAll(stream.Side(), rest) else goal == Sent(stream.Side(), st)
    {
      var title := "s" + Numeral(id) + (if k.Input? then ".x" else ".y");
      ghost var cells := Cells(cfg, sys, mem[..], k, 0);
      assert Row(cfg, id, sys, mem[..], k) + rest == [Printed(cfg, title)] + (cells + (["\n"] + rest));
      st := PutFormatted(title, goal, cells + (["\n"] + rest));
      if st != OK {
        return;
      }
      st := SendCells(sys, k, goal, ["\n"] + rest);
      if st != OK {
        return;
      }
      st := Put("\n", goal, rest);
    }

    method SendHeader(ghost goal: Sent, ghost rest: seq<string>) returns (st: Status)
      requires CanSend() && goal == SendAll(stream.Side(), [Printed(cfg, "sys")] + HeaderCells(cfg, 0) + ["\n"] + rest)
      modifies stream`status, stream.driver`outbox, stream.driver`room
      ensures if st == OK then goal == SendAll(stream.Side(), rest) else goal == Sent(stream.Side(), st)
    {
      ghost var tail := ["\n"] + rest;
      assert [Printed(cfg, "sys")] + HeaderCells(cfg, 0) + ["\n"] + rest == [Printed(cfg, "sys")] + (HeaderCells(cfg, 0) + tail);
      st := PutFormatted("sys", goal, HeaderCells(cfg, 0) + tail);
      if st != OK {
        return;
      }
      var i := 0;
      while i < cfg.headerCount
        invariant 0 <= i <= cfg.headerCount && st == OK && CanSend()
        invariant goal == SendAll(stream.Side(), HeaderCells(cfg, i) + tail)
      {
        var text := "\t" + Numeral(i);
        assert HeaderCells(cfg, i) + tail == [Printed(cfg, text)] + (HeaderCells(cfg, i + 1) + tail);
        st := PutFormatted(text, goal, HeaderCells(cfg, i + 1) + tail);
        if st != OK {
          return;
        }
        i := i + 1;
      }
      NilUnit(tail);
      st := Put("\n", goal, rest);
    }

    /** The table of the given systems; without an echo when the pointer is NULL. */
    method SendDump(echo: Option<string>, systems: seq<Entry<S>>) returns (st: Status)
      requires CanSend() && Dumpable(systems, mem.Length)
      modifies stream`status, stream.driver`outbox, stream.driver`room
      ensures Sent(stream.Side(), st) == SendAll(old(stream.Side()), DumpPieces(cfg, EchoOf(echo), systems, mem[..]))
    {
      ghost var m := mem[..];
      ghost var e := EchoOf(echo);
      ghost var goal := SendAll(stream.Side(), DumpPieces(cfg, e, systems, m));
      ghost var top := [Printed(cfg, "sys")] + HeaderCells(cfg, 0) + ["\n"];
      ghost var rows := Rows(cfg, systems, m) + [ETX];
      assert DumpPieces(cfg, e, systems, m) == HeadPieces(e) + (top + rows);
      st := SendHead(echo, goal, top + rows);
      if st != OK {
        return;
      }
      st := SendHeader(goal, rows);
      if st != OK {
        return;
      }
      NilUnit([ETX]);
      st := SendRows(systems, goal, [ETX]);
      if st != OK {
        return;
      }
      st := Put(ETX, goal, []);
    }

    /** The dump of any systems, without an echo. */
    method Dump(systems: seq<Entry<S>>) returns (st: Status)
      requires CanSend() && Dumpable(systems, mem.Length)
      modifies stream`status, stream.driver`outbox, stream.driver`room
      ensures Sent(stream.Side(), st) == SendAll(old(stream.Side()), DumpPieces(cfg, "", systems, mem[..]))
    {
      st := SendDump(None, systems);
    }

    /** The help page of one system. */
    method SendHelp(echo: string, entry: Entry<S>) returns (st: Status)
      requires CanSend() && entry.system.Some? && Fits(Leaves(entry.system.value), mem.Length)
      modifies stream`status, stream.driver`outbox, stream.driver`room
      ensures Sent(stream.Side(), st) == SendAll(old(stream.Side()), HelpPieces(cfg, EchoCut(echo), entry, mem[..]))
    {
      ghost var m, e := mem[..], EchoCut(echo);
      var sys := entry.system.value;
      ghost var goal := SendAll(stream.Side(), HelpPieces(cfg, e, entry, m));
      ghost var lines := AliasLines(cfg, sys, m, 0, cfg.blank) + [ETX];
      var title := "[s" + Numeral(entry.id) + "]\n";
      ghost var named := if entry.name.Some? then [Printed(cfg, entry.name.value + " ")] else [];
      assert HelpPieces(cfg, e, entry, m) == HeadPieces(e) + (named + ([Printed(cfg, title)] + lines));
      st := SendHead(Some(echo), goal, named + ([Printed(cfg, title)] + lines));
      if st != OK {
        return;
      }
      if entry.name.Some? {
        st := PutFormatted(entry.name.value + " ", goal, [Printed(cfg, title)] + lines);
        if st != OK {
          return;
        }
      } else {
        NilUnit([Printed(cfg, title)] + lines);
      }
      st := PutFormatted(title, goal, lines);
      if st != OK {
        return;
      }
      NilUnit([ETX]);
      st := SendAliases(sys, goal, [ETX]);
      if st != OK {
        return;
      }
      st := Put(ETX, goal, []);
    }

    method SendAliases(sys: System<S>, ghost goal: Sent, ghost rest: seq<string>) returns (st: Status)
      requires CanSend() && Fits(Leaves(sys), mem.Length)
      requires goal == SendAll(stream.Side(), AliasLines(cfg, sys, mem[..], 0, cfg.blank) + rest)
      modifies stream`status, stream.driver`outbox, stream.driver`room
      ensures if st == OK then goal == SendAll(stream.Side(), rest) else goal == Sent(stream.Side(), st)
    {
      ghost var m := mem[..];
      st := OK;
      var count := DriverCount(sys, mem, Alias);
      var info, i := cfg.blank, 0;
      while i < count
        invariant 0 <= i <= count && st == OK && CanSend() && mem[..] == m
        invariant goal == SendAll(stream.Side(), AliasLines(cfg, sys, m, i, info) + rest)
      {
        AliasesStep(cfg, sys, m, i, info, rest);
        info := DriverAlias(sys, mem, i, info);
        st := SendAlias(info, goal, AliasLines(cfg, sys, m, i + 1, info) + rest);
        if st != OK {
          return;
        }
        i := i + 1;
      }
      NilUnit(rest);
    }

    method SendAlias(info: CmdInfo, ghost goal: Sent, ghost rest: seq<string>) returns (st: Status)
      requires CanSend() && goal == SendAll(stream.Side(), AliasPieces(cfg, info) + rest)
      modifies stream`status, stream.driver`outbox, stream.driver`room
      ensures if st == OK then goal == SendAll(stream.Side(), rest) else goal == Sent(stream.Side(), st)
    {
      var member := (match info.cmd case FuncCmd => "[f" case InputCmd => "[x" case _ => "[y") + Numeral(info.id);
      ghost var close := [Printed(cfg, "]\n")] + rest;
      ghost var preset := (if info.hasPreset then [Printed(cfg, " = " + Numeral(info.preset))] else []) + close;
      ghost var spelled := (if info.alias.Some? then [Printed(cfg, info.alias.value + " ")] else []) + ([Printed(cfg, member)] + preset);
      assert AliasPieces(cfg, info) + rest == [Printed(cfg, "- ")] + spelled;
      st := PutFormatted("- ", goal, spelled);
      if st != OK {
        return;
      }
      if info.alias.Some? {
        st := PutFormatted(info.alias.value + " ", goal, [Printed(cfg, member)] + preset);
        if st != OK {
          return;
        }
      } else {
        NilUnit([Printed(cfg, member)] + preset);
      }
      st := PutFormatted(member, goal, preset);
      if st != OK {
        return;
      }
      if info.hasPreset {
        st := PutFormatted(" = " + Numeral(info.preset), goal, close);
        if st != OK {
          return;
        }
      } else {
        NilUnit(close);
      }
      st := PutFormatted("]\n", goal, rest);
    }

    /** The driver's alias handler, without the guard. */
    method DriverAlias(sys: System<S>, mem: array<S>, id: u8, info: CmdInfo) returns (r: CmdInfo)
      requires Fits(Leaves(sys), mem.Length) && id < Count(sys, mem[..], Alias)
      ensures r == GetAlias(sys, mem[..], id, info).info
    {
      match sys {
        case Leaf(l) =>
          assert Leaves(sys)[0] == l;
          r := if l.driver.getAlias.None? then info else l.driver.getAlias.value(mem[l.ctx], id, info).0;
        case Composite(cs) =>
          var st;
          r, st := CompositeAlias(cs, mem, id, info);
      }
    }

    method SendRows(systems: seq<Entry<S>>, ghost goal: Sent, ghost rest: seq<string>) returns (st: Status)
      requires CanSend() && Dumpable(systems, mem.Length)
      requires goal == SendAll(stream.Side(), Rows(cfg, systems, mem[..]) + rest)
      modifies stream`status, stream.driver`outbox, stream.driver`room
      ensures if st == OK then goal == SendAll(stream.Side(), rest) else goal == Sent(stream.Side(), st)
    {
      ghost var m := mem[..];
      st := OK;
      var i := 0;
      assert systems[0..] == systems;
      while i < |systems|
        invariant 0 <= i <= |systems| && st == OK && CanSend() && mem[..] == m && Dumpable(systems[i..], |m|)
        invariant goal == SendAll(stream.Side(), Rows(cfg, systems[i..], m) + rest)
      {
        var sys := systems[i];
        ghost var more := Rows(cfg, systems[i + 1..], m) + rest;
        ghost var second := Row(cfg, sys.id, sys.system.value, m, Output) + more;
        RowsStep(cfg, systems, i, m, rest);
        st := SendRow(sys.id, sys.system.value, Input, goal, second);
        if st != OK {
          return;
        }
        st := SendRow(sys.id, sys.system.value, Output, goal, more);
        if st != OK {
          return;
        }
        i := i + 1;
      }
      NilUnit(rest);
    }
  }

  /** The arguments read so far and those still to read make up the goal. */
  ghost predicate Continues(goal: Args, vals: seq<int32>, a: Args) {
    goal.vals == vals + a.vals && goal.ok == a.ok
  }

  lemma ContinuesOn(goal: Args, vals: seq<int32>, v: int32, a: Args, a': Args)
    requires Continues(goal, vals, a) && a == Args([v] + a'.vals, a'.ok)
    ensures Continues(goal, vals + [v], a')
  {
    Assoc(vals, [v], a'.vals);
  }

  /** A buffer after its front has been filled. */
  function Overwrite(before: seq<int32>, vals: seq<int32>): (r: seq<int32>)
    ensures |vals| <= |before| ==> |r| == |before|
  {
    if |vals| <= |before| then vals + before[|vals|..] else vals
  }

  /** The front holds the values, the rest is as before. */
  lemma OverwriteIs(before: seq<int32>, vals: seq<int32>)
    requires |vals| <= |before|
    ensures var r := Overwrite(before, vals);
      r[..|vals|] == vals && r[|vals|..] == before[|vals|..]
  {}

  lemma PutAt(vals: seq<int32>, before: seq<int32>, v: int32)
    requires |vals| < |before|
    ensures Overwrite(before, vals)[|vals| := v] == Overwrite(before, vals + [v])
  {}

  /** A number at the front of a text, seen in its token list. */
  lemma NumberInTokens(r: string) returns (t: string, ts: seq<string>)
    requires r != "" && !IsDelimiter(r[0])
    ensures Tokens(r) == [t] + ts && Strtol(t) == Strtol(r)
    ensures var k := Strtol(r).used;
      k <= |t| && Tokens(DropBlank(r[k..])) == (if t[k..] == "" then [] else [t[k..]]) + ts
  {
    var rest;
    t, rest := TokenLenSplits(r);
    ts := Tokens(rest);
    TokensCons(t, rest);
    AfterNumber(t, rest);
    TokensDropBlank(r[Strtol(r).used..]);
  }

  lemma ArgsFail(r: string, room: nat)
    requires r != "" && !IsDelimiter(r[0]) && Strtol(r).used == 0
    ensures ParseArgs(Tokens(r), room + 1) == Args([Strtol(r).val], false)
  {
    var t, ts := NumberInTokens(r);
  }

  /** One argument off the front of the text. */
  lemma ArgsAdvance(r: string, next: string, room: nat)
    requires r != "" && !IsDelimiter(r[0]) && Strtol(r).used > 0
    requires next == DropBlank(r[Strtol(r).used..])
    ensures var a := ParseArgs(Tokens(next), room);
      ParseArgs(Tokens(r), room + 1) == Args([Strtol(r).val] + a.vals, a.ok)
  {
    var t, ts := NumberInTokens(r);
    ArgsStep(t, ts, Strtol(t), room);
  }

  /** One turn of the argument loop: the goal is reached, or the loop goes on. */
  lemma ArgsTurn(goal: Args, vals: seq<int32>, token: string, room: nat)
    requires token != "" && !IsDelimiter(token[0])
    requires Continues(goal, vals, ParseArgs(Tokens(token), room + 1))
    ensures var scan := Strtol(token);
      if scan.used == 0 then goal == Args(vals + [scan.val], false)
      else Continues(goal, vals + [scan.val], ParseArgs(Tokens(DropBlank(token[scan.used..])), room))
  {
    var scan := Strtol(token);
    if scan.used == 0 {
      ArgsFail(token, room);
    } else {
      var next := DropBlank(token[scan.used..]);
      ArgsAdvance(token, next, room);
      ContinuesOn(goal, vals, scan.val, ParseArgs(Tokens(token), room + 1), ParseArgs(Tokens(next), room));
    }
  }

  lemma ArgsStep(t: string, rest: seq<string>, scan: Scan, room: nat)
    requires scan == Strtol(t) && scan.used > 0
    ensures var a := ParseArgs((if t[scan.used..] == "" then [] else [t[scan.used..]]) + rest, room);
      ParseArgs([t] + rest, room + 1) == Args([scan.val] + a.vals, a.ok)
  {
    assert ([t] + rest)[1..] == rest;
    NilUnit(rest);
  }

  lemma CellsStep<S>(cfg: Config<S>, sys: System<S>, m: seq<S>, k: Kind, i: nat, rest: seq<string>)
    requires cfg.txLen > 0 && i < cfg.headerCount && Fits(Leaves(sys), |m|)
    ensures Cells(cfg, sys, m, k, i) + rest ==
      ["\t"] + (ResultPieces(cfg, GuardedRead(sys, m, k, i)) + (Cells(cfg, sys, m, k, i + 1) + rest))
  {
    var res, more := ResultPieces(cfg, GuardedRead(sys, m, k, i)), Cells(cfg, sys, m, k, i + 1);
    Assoc(["\t"] + res, more, rest);
    Assoc(["\t"], res, more + rest);
  }

  lemma AliasesStep<S>(cfg: Config<S>, sys: System<S>, m: seq<S>, i: u8, info: CmdInfo, rest: seq<string>)
    requires cfg.txLen > 0 && Fits(Leaves(sys), |m|) && i < Count(sys, m, Alias)
    ensures var next := GetAlias(sys, m, i, info).info;
      AliasLines(cfg, sys, m, i, info) + rest == AliasPieces(cfg, next) + (AliasLines(cfg, sys, m, i + 1, next) + rest)
  {
    var next := GetAlias(sys, m, i, info).info;
    Assoc(AliasPieces(cfg, next), AliasLines(cfg, sys, m, i + 1, next), rest);
  }

  lemma RowsStep<S>(cfg: Config<S>, systems: seq<Entry<S>>, i: nat, m: seq<S>, rest: seq<string>)
    requires cfg.txLen > 0 && i < |systems| && Dumpable(systems[i..], |m|)
    ensures systems[i].system.Some? && Fits(Leaves(systems[i].system.value), |m|) && Dumpable(systems[i + 1..], |m|)
    ensures var e := systems[i];
      Rows(cfg, systems[i..], m) + rest ==
        Row(cfg, e.id, e.system.value, m, Input)
        + (Row(cfg, e.id, e.system.value, m, Output) + (Rows(cfg, systems[i + 1..], m) + rest))
  {
    assert systems[i..][0] == systems[i] && systems[i..][1..] == systems[i + 1..];
    var e := systems[i];
    var a, b, c := Row(cfg, e.id, e.system.value, m, Input), Row(cfg, e.id, e.system.value, m, Output), Rows(cfg, systems[i + 1..], m);
    Assoc(a + b, c, rest);
    Assoc(a, b, c + rest);
  }
}
