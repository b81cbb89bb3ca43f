// Lines one after another, lines that are refused, pages, and the bytes of every kind of answer.

module LineLaws {
  import opened Basics
  import opened Text
  import opened Streams
  import opened Framing
  import opened Systems
  import opened Dispatch
  import opened SystemCore
  import opened Handlers
  import opened LeafModules
  import opened Commands
  import opened Meaning
  import opened Frames
  import opened CommandLaws

  // ---------- Writing by one line, reading by the next ----------

  /** The two memories differ in devices' values and targets at most. */
  ghost predicate SameShape(m: seq<Context>, m': seq<Context>) {
    && |m'| == |m|
    && forall a :: 0 <= a < |m| ==> m'[a].names == m[a].names && m'[a].device.readOnly == m[a].device.readOnly
  }

  ghost predicate Bounded255(ls: seq<Module<Context>>, m: seq<Context>)
    requires Fits(ls, |m|)
  {
    && Total(ls, m, Input) <= 0xFF && Total(ls, m, Output) <= 0xFF
    && Total(ls, m, Func) <= 0xFF && Total(ls, m, Alias) <= 0xFF
  }

  lemma ShapeCounts(ls: seq<Module<Context>>, m: seq<Context>, m': seq<Context>, k: Kind, p: nat)
    requires Fits(ls, |m|) && Modules(ls) && SameShape(m, m') && p <= |ls|
    ensures forall i :: 0 <= i < |ls| ==> LeafCount(ls[i], m, k) == LeafCount(ls[i], m', k)
    ensures Start(ls, m, k, p) == Start(ls, m', k, p) && Total(ls, m, k) == Total(ls, m', k)
  {
    forall i | 0 <= i < |ls| ensures LeafCount(ls[i], m, k) == LeafCount(ls[i], m', k) {
      assert IsModule(ls[i]);
    }
    StartAlike(ls, m, m', k, p);
  }

  /** The handler of a shipped leaf gives the same alias to both memories. */
  lemma AskedAlike(ls: seq<Module<Context>>, m: seq<Context>, m': seq<Context>, p: nat, own: u8, info: CmdInfo, a: Named, a': Named)
    requires Fits(ls, |m|) && Modules(ls) && SameShape(m, m') && p < |ls| && ls[p].driver.getAlias.Some?
    requires Asked(ls, m, p, own, info, a) && Asked(ls, m', p, own, info, a')
    ensures a == a'
  {
    assert IsModule(ls[p]);
    ShapeCounts(ls, m, m', Input, p);
    ShapeCounts(ls, m, m', Output, p);
    ShapeCounts(ls, m, m', Func, p);
  }

  lemma SameLookup(sys: System<Context>, m: seq<Context>, m': seq<Context>, i: u8, info: CmdInfo)
    requires Fits(Leaves(sys), |m|) && Modules(Leaves(sys)) && SameShape(m, m')
    requires i < Total(Leaves(sys), m, Alias) <= 0xFF
    ensures GuardedAlias(sys, m', i, info) == GuardedAlias(sys, m, i, info)
  {
    var ls := Leaves(sys);
    var p := HasOne(sys, m, Alias, i);
    ShapeCounts(ls, m, m', Alias, p);
    assert IsModule(ls[p]);
    AliasCalls(sys, m, i, info, p);
    AliasCalls(sys, m', i, info, p);
    AskedAlike(ls, m, m', p, Own(ls, m, Alias, i, p), info, GuardedAlias(sys, m, i, info), GuardedAlias(sys, m', i, info));
  }

  /** A search for an alias does not depend on values. */
  lemma {:induction false} SameSearch(sys: System<Context>, m: seq<Context>, m': seq<Context>, name: string, i: nat, info: CmdInfo)
    requires Fits(Leaves(sys), |m|) && Modules(Leaves(sys)) && SameShape(m, m') && Bounded255(Leaves(sys), m)
    requires Count(sys, m, Alias) == Count(sys, m', Alias) == Total(Leaves(sys), m, Alias) && i <= Count(sys, m, Alias)
    ensures FindAlias(sys, m', name, i, info) == FindAlias(sys, m, name, i, info)
    decreases Count(sys, m, Alias) - i
  {
    if i < Count(sys, m, Alias) {
      SameLookup(sys, m, m', i, info);
      SameSearch(sys, m, m', name, i + 1, GuardedAlias(sys, m, i, info).info);
    }
  }

  /** So what is addressed stays addressed. */
  lemma StillAddressed(cfg: Config<Context>, m: seq<Context>, m': seq<Context>, id: u8, op: Commands.Op)
    requires Valid(cfg, |m|) && Addresses(cfg, m, id, op) && SameShape(m, m')
    requires var sys := cfg.entries[FindById(cfg.entries, id).value].system.value;
      Modules(Leaves(sys)) && Bounded255(Leaves(sys), m)
    ensures Addresses(cfg, m', id, op)
  {
    var sys := cfg.entries[FindById(cfg.entries, id).value].system.value;
    ShapeCounts(Leaves(sys), m, m', Alias, 0);
    CountExact(sys, m, Alias);
    CountExact(sys, m', Alias);
    SameSearch(sys, m, m', Member(op), 0, NO_INFO);
  }

  /** The value that a leaf's input holds after `v` was written. */
  function Kept(l: Module<Context>, v: int32): int32 {
    if l.driver.invoke.None? then v else if v == 0 then 0 else 1
  }

  lemma WrittenShape(sys: System<Context>, m: seq<Context>, j: u8, v: int32, p: nat)
    requires Fits(Leaves(sys), |m|) && Modules(Leaves(sys)) && Bounded255(Leaves(sys), m)
    requires Has(Leaves(sys), m, Input, j, p)
    ensures var m', l := GuardedWrite(sys, m, j, v).mem, Leaves(sys)[p];
      && SameShape(m, m') && m'[l.ctx].target == Kept(l, v)
      && forall a :: 0 <= a < |m| && a != l.ctx ==> m'[a] == m[a]
  {
    assert IsModule(Leaves(sys)[p]);
    WriteCalls(sys, m, j, v, p);
    DeviceAfterWrite(m[Leaves(sys)[p].ctx], Own(Leaves(sys), m, Input, j, p), v);
  }

  /** Another input belongs to another leaf, whose context was not touched. */
  lemma OtherInput(sys: System<Context>, m: seq<Context>, j: u8, k: u8, p: nat, q: nat)
    requires Fits(Leaves(sys), |m|) && Modules(Leaves(sys)) && SeparateContexts(Leaves(sys)) && j != k
    requires Has(Leaves(sys), m, Input, j, p) && Has(Leaves(sys), m, Input, k, q)
    ensures Leaves(sys)[p].ctx != Leaves(sys)[q].ctx
  {
    assert IsModule(Leaves(sys)[p]) && LeafCount(Leaves(sys)[p], m, Input) <= 1;
  }

  lemma InputsAfterWrite(sys: System<Context>, m: seq<Context>, j: u8, v: int32, k: u8) returns (p: nat)
    requires Fits(Leaves(sys), |m|) && Modules(Leaves(sys)) && SeparateContexts(Leaves(sys)) && Bounded255(Leaves(sys), m)
    requires j < Total(Leaves(sys), m, Input) && k < Total(Leaves(sys), m, Input)
    ensures Has(Leaves(sys), m, Input, j, p)
    ensures var m' := GuardedWrite(sys, m, j, v).mem;
      && SameShape(m, m')
      && GuardedRead(sys, m', Input, k) ==
           if k == j then Value(Kept(Leaves(sys)[p], v)) else GuardedRead(sys, m, Input, k)
  {
    var m' := GuardedWrite(sys, m, j, v).mem;
    p := HasOne(sys, m, Input, j);
    WrittenShape(sys, m, j, v, p);
    if k == j {
      ShapeCounts(Leaves(sys), m, m', Input, p);
      InputIsTarget(sys, m', j, p);
    } else {
      var q := HasOne(sys, m, Input, k);
      OtherInput(sys, m, j, k, p, q);
      ShapeCounts(Leaves(sys), m, m', Input, q);
      InputIsTarget(sys, m, k, q);
      InputIsTarget(sys, m', k, q);
    }
  }

  /** On any tree of the shipped leaves: after `s<i>.x<j> = v`, the line `s<i>.x<j>` answers v, or its truth
      value when the input is a digital leaf's, and the line for any other input answers what it did before. */
  lemma WriteThenReadLines(cfg: Config<Context>, m: seq<Context>, id: u8, j: u8, v: int32, k: u8) returns (p: nat)
    requires Valid(cfg, |m|) && Addresses(cfg, m, id, WriteInput(j, v)) && Addresses(cfg, m, id, ReadInput(k))
    requires var sys := cfg.entries[FindById(cfg.entries, id).value].system.value;
      && Modules(Leaves(sys)) && SeparateContexts(Leaves(sys)) && Bounded255(Leaves(sys), m)
      && j < Total(Leaves(sys), m, Input) && k < Total(Leaves(sys), m, Input)
    ensures var sys := cfg.entries[FindById(cfg.entries, id).value].system.value;
      var m' := Interpret(cfg, m, Render(id, WriteInput(j, v))).mem;
      && Has(Leaves(sys), m, Input, j, p)
      && Interpret(cfg, m', Render(id, ReadInput(k))).reply ==
           if k == j then Response(Value(Kept(Leaves(sys)[p], v))) else Interpret(cfg, m, Render(id, ReadInput(k))).reply
  {
    var sys := cfg.entries[FindById(cfg.entries, id).value].system.value;
    RenderedCommandRuns(cfg, m, id, WriteInput(j, v));
    RenderedCommandRuns(cfg, m, id, ReadInput(k));
    p := InputsAfterWrite(sys, m, j, v, k);
    var m' := GuardedWrite(sys, m, j, v).mem;
    StillAddressed(cfg, m, m', id, ReadInput(k));
    RenderedCommandRuns(cfg, m', id, ReadInput(k));
  }

  // ---------- Lines that are refused ----------

  /** A member by number is one of three letters with a digit behind it. */
  lemma MemberTokenIff(t: string)
    ensures ParseMember(t).Some? <==> |t| >= 2 && IsDigit(t[1]) && t[0] in "xyf"
  {}

  /** Nothing but delimiters, a first token that names no system, a lone question mark, and a second token that
      is neither an alias nor a member are all answered with error 2, and change nothing. */
  lemma Refused<S>(cfg: Config<S>, m: seq<S>, text: string, e: nat)
    requires Valid(cfg, |m|)
    requires var ts := Tokens(text);
      || ts == []
      || (SystemWord(ts[0]) && FindSystem(cfg.entries, ts[0]).None?)
      || ts[0] == "?"
      || (|ts| >= 2 && SystemWord(ts[0]) && FindSystem(cfg.entries, ts[0]) == Some(e)
          && FindAlias(cfg.entries[e].system.value, m, ts[1], 0, NO_INFO).None? && ParseMember(ts[1]).None?)
    ensures Interpret(cfg, m, text) == Outcome(m, Response(Err(2)))
  {
    var ts := Tokens(text);
    if ts != [] && ts[0] == "?" {
      assert ts[0][1..] == "" && ts[0][0] != "clear"[0];
    } else if |ts| >= 2 {
      assert ts[1..][0] == ts[1];
    }
  }

  // ---------- Pages ----------

  /** A system's name on its own asks for its dump; with a question mark in front, and whatever behind, for its
      help page; every line that starts with "clear" clears the screen. */
  lemma PageLines<S>(cfg: Config<S>, m: seq<S>, text: string, name: string, e: nat)
    requires Valid(cfg, |m|) && SystemWord(name) && FindSystem(cfg.entries, name) == Some(e)
    ensures Tokens(text) == [name] ==> Interpret(cfg, m, text) == Outcome(m, DumpPage(e))
    ensures Tokens(text) != [] && Tokens(text)[0] == "?" + name ==> Interpret(cfg, m, text) == Outcome(m, HelpPage(e))
    ensures Tokens(text) != [] && "clear" <= Tokens(text)[0] ==> Interpret(cfg, m, text) == Outcome(m, ClearScreen)
  {
    var t := "?" + name;
    assert t[0] != "clear"[0] && t[1..] == name;
  }

  // ---------- The bytes of the answers ----------

  lemma ClearBytes<S>(cfg: Config<S>, m: seq<S>, echo: string)
    requires Valid(cfg, |m|) && cfg.txLen >= 12
    ensures Concat(Pieces(cfg, m, echo, ClearScreen)) == "\U{1B}[2J\U{1B}[H"
  {
    ConcatOne(Printed(cfg, CLEAR_SCREEN));
  }

  /** Start mark 2 and a newline; the echo on a line of its own unless it is empty. */
  function Opening(echo: string): string {
    "\U{02}\n" + (if echo == "" then "" else echo + "\n")
  }

  lemma OpeningBytes(echo: string)
    ensures Concat(HeadPieces(echo)) == Opening(echo)
  {
    ConcatHead(echo);
    assert STX + "\n" == "\U{02}\n";
  }

  /** The result line, where an error has an E in front, and end mark 3. */
  function Closing(r: Result): string {
    (match r case Value(v) => Numeral(v) case Err(e) => "E" + Numeral(e)) + "\n" + "\U{03}"
  }

  lemma FrameIs(echo: string, r: Result)
    ensures Frame(echo, r) == Opening(echo) + Closing(r)
  {
    assert STX + "\n" == "\U{02}\n" && ETX == "\U{03}";
  }

  lemma ResponseBytes<S>(cfg: Config<S>, m: seq<S>, echo: string, r: Result)
    requires Valid(cfg, |m|) && cfg.txLen >= 12
    ensures Concat(Pieces(cfg, m, echo, Response(r))) == Opening(echo) + Closing(r)
  {
    ConcatResponse(cfg, echo, r);
    FrameIs(echo, r);
  }

  lemma DumpPiecesBytes<S>(cfg: Config<S>, m: seq<S>, echo: string, entries: seq<Entry<S>>)
    requires cfg.txLen >= 12 && Dumpable(entries, |m|)
    ensures Concat(DumpPieces(cfg, echo, entries, m)) == Opening(echo) + Joined(TableLines(cfg, entries, m)) + "\U{03}"
  {
    var head, body := HeadPieces(echo), DumpBody(cfg, entries, m);
    OpeningBytes(echo);
    DumpIsTable(cfg, entries, m);
    ConcatOne(ETX);
    ConcatAppend(head, body);
    ConcatAppend(head + body, [ETX]);
  }

  /** The dump page: the same opening, the table, and the end mark. */
  lemma DumpBytes<S>(cfg: Config<S>, m: seq<S>, echo: string, e: nat)
    requires Valid(cfg, |m|) && cfg.txLen >= 12 && SystemOf(cfg, e).Some?
    ensures Dumpable([cfg.entries[e]], |m|)
    ensures Concat(Pieces(cfg, m, echo, DumpPage(e)))
      == Opening(echo) + Joined(TableLines(cfg, [cfg.entries[e]], m)) + "\U{03}"
  {
    DumpPiecesBytes(cfg, m, echo, [cfg.entries[e]]);
  }

  // ---------- The help page ----------

  /** The records of the aliases from `i` on, as the help page asks for them. */
  function Listed<S>(sys: System<S>, m: seq<S>, i: nat, info: CmdInfo): seq<CmdInfo>
    requires Fits(Leaves(sys), |m|) && i <= Count(sys, m, Alias)
    decreases Count(sys, m, Alias) - i
  {
    if i == Count(sys, m, Alias) then []
    else
      var next := GetAlias(sys, m, i, info).info;
      [next] + Listed(sys, m, i + 1, next)
  }

  /** `- turnOn [x0 = 1]` and the like. */
  function HelpLine(info: CmdInfo): string {
    "- "
    + WithSpace(info.alias)
    + ((if info.cmd.FuncCmd? then "[f" else if info.cmd.InputCmd? then "[x" else "[y") + Decimal(info.id))
    + (if info.hasPreset then " = " + Numeral(info.preset) else "")
    + "]"
  }

  function HelpLines(infos: seq<CmdInfo>): seq<string> {
    if infos == [] then [] else [HelpLine(infos[0])] + HelpLines(infos[1..])
  }

  /** A name and the space behind it fit into the transmit buffer. */
  predicate Fitting(txLen: nat, name: Option<string>) {
    name.None? || |name.value| + 2 <= txLen
  }

  lemma ConcatFive(a: seq<string>, b: seq<string>, c: seq<string>, d: seq<string>, e: seq<string>)
    ensures Concat(a + b + c + d + e) == Concat(a) + Concat(b) + Concat(c) + Concat(d) + Concat(e)
  {
    ConcatAppend(a, b);
    ConcatAppend(a + b, c);
    ConcatAppend(a + b + c, d);
    ConcatAppend(a + b + c + d, e);
  }

  lemma FitsPrinted<S>(cfg: Config<S>, text: string)
    requires 0 < cfg.txLen && |text| < cfg.txLen
    ensures Printed(cfg, text) == text
  {}

  /** A print that may be left out. */
  lemma MaybePrinted<S>(cfg: Config<S>, there: bool, text: string)
    requires 0 < cfg.txLen && |text| < cfg.txLen
    ensures Concat(if there then [Printed(cfg, text)] else []) == if there then text else ""
  {
    FitsPrinted(cfg, text);
    ConcatOne(text);
  }

  lemma HelpMemberText<S>(cfg: Config<S>, info: CmdInfo)
    requires cfg.txLen >= 16
    ensures Concat([Printed(cfg, HelpMember(info))]) == HelpMember(info)
    ensures HelpMember(info) ==
      (if info.cmd.FuncCmd? then "[f" else if info.cmd.InputCmd? then "[x" else "[y") + Decimal(info.id)
  {
    NumeralLength(info.id);
    FitsPrinted(cfg, HelpMember(info));
    ConcatOne(HelpMember(info));
  }

  /** The text behind a name, with the space; nothing without a name. */
  function WithSpace(name: Option<string>): string {
    if name.Some? then name.value + " " else ""
  }

  lemma NamePrinted<S>(cfg: Config<S>, name: Option<string>)
    requires 0 < cfg.txLen && Fitting(cfg.txLen, name)
    ensures Concat(if name.Some? then [Printed(cfg, name.value + " ")] else []) == WithSpace(name)
  {
    MaybePrinted(cfg, name.Some?, WithSpace(name));
  }

  lemma PresetPrinted<S>(cfg: Config<S>, info: CmdInfo)
    requires cfg.txLen >= 16
    ensures Concat(if info.hasPreset then [Printed(cfg, " = " + Numeral(info.preset))] else [])
      == if info.hasPreset then " = " + Numeral(info.preset) else ""
  {
    NumeralLength(info.preset);
    MaybePrinted(cfg, info.hasPreset, " = " + Numeral(info.preset));
  }

  lemma AliasBytes<S>(cfg: Config<S>, info: CmdInfo)
    requires cfg.txLen >= 16 && Fitting(cfg.txLen, info.alias)
    ensures Concat(AliasPieces(cfg, info)) == HelpLine(info) + "\n"
  {
    var a, e := [Printed(cfg, "- ")], [Printed(cfg, "]\n")];
    var b := if info.alias.Some? then [Printed(cfg, info.alias.value + " ")] else [];
    var c := [Printed(cfg, HelpMember(info))];
    var d := if info.hasPreset then [Printed(cfg, " = " + Numeral(info.preset))] else [];
    assert AliasPieces(cfg, info) == a + b + c + d + e;
    ConcatFive(a, b, c, d, e);
    MaybePrinted(cfg, true, "- ");
    NamePrinted(cfg, info.alias);
    HelpMemberText(cfg, info);
    PresetPrinted(cfg, info);
    MaybePrinted(cfg, true, "]\n");
    LineEnd(Concat(a) + Concat(b) + Concat(c) + Concat(d));
  }

  lemma LineEnd(s: string)
    ensures s + "]\n" == (s + "]") + "\n"
  {}

  lemma {:induction false} AliasLinesBytes<S>(cfg: Config<S>, sys: System<S>, m: seq<S>, i: nat, info: CmdInfo)
    requires cfg.txLen >= 16 && Fits(Leaves(sys), |m|) && i <= Count(sys, m, Alias)
    requires forall x :: x in Listed(sys, m, i, info) ==> Fitting(cfg.txLen, x.alias)
    ensures Concat(AliasLines(cfg, sys, m, i, info)) == Joined(HelpLines(Listed(sys, m, i, info)))
    decreases Count(sys, m, Alias) - i
  {
    if i < Count(sys, m, Alias) {
      var next := GetAlias(sys, m, i, info).info;
      var rest := Listed(sys, m, i + 1, next);
      ListedCons(next, rest);
      AliasBytes(cfg, next);
      AliasLinesBytes(cfg, sys, m, i + 1, next);
      ConcatAppend(AliasPieces(cfg, next), AliasLines(cfg, sys, m, i + 1, next));
    }
  }

  lemma ListedCons(next: CmdInfo, rest: seq<CmdInfo>)
    ensures next in [next] + rest && forall x :: x in rest ==> x in [next] + rest
    ensures Joined(HelpLines([next] + rest)) == HelpLine(next) + "\n" + Joined(HelpLines(rest))
  {
    assert ([next] + rest)[1..] == rest;
    assert ([HelpLine(next)] + HelpLines(rest))[1..] == HelpLines(rest);
  }

  lemma TitleBytes<S>(cfg: Config<S>, id: u8)
    requires cfg.txLen >= 16
    ensures Concat([Printed(cfg, "[s" + Numeral(id) + "]\n")]) == "[s" + Decimal(id) + "]\n"
  {
    NumeralLength(id);
    MaybePrinted(cfg, true, "[s" + Numeral(id) + "]\n");
  }

  lemma HelpPiecesBytes<S>(cfg: Config<S>, m: seq<S>, echo: string, entry: Entry<S>)
    requires cfg.txLen >= 16 && Fitting(cfg.txLen, entry.name)
    requires entry.system.Some? && Fits(Leaves(entry.system.value), |m|)
    requires forall x :: x in Listed(entry.system.value, m, 0, cfg.blank) ==> Fitting(cfg.txLen, x.alias)
    ensures Concat(HelpPieces(cfg, echo, entry, m)) ==
      Opening(echo) + WithSpace(entry.name) + ("[s" + Decimal(entry.id) + "]\n")
      + Joined(HelpLines(Listed(entry.system.value, m, 0, cfg.blank))) + "\U{03}"
  {
    var b := if entry.name.Some? then [Printed(cfg, entry.name.value + " ")] else [];
    var c, d := [Printed(cfg, "[s" + Numeral(entry.id) + "]\n")], AliasLines(cfg, entry.system.value, m, 0, cfg.blank);
    assert HelpPieces(cfg, echo, entry, m) == HeadPieces(echo) + b + c + d + [ETX];
    ConcatFive(HeadPieces(echo), b, c, d, [ETX]);
    OpeningBytes(echo);
    NamePrinted(cfg, entry.name);
    TitleBytes(cfg, entry.id);
    AliasLinesBytes(cfg, entry.system.value, m, 0, cfg.blank);
    ConcatOne(ETX);
  }

  /** The help page: the opening, the system's name and number, a line for each alias in order, the end mark. */
  lemma HelpBytes<S>(cfg: Config<S>, m: seq<S>, echo: string, e: nat)
    requires Valid(cfg, |m|) && cfg.txLen >= 16 && SystemOf(cfg, e).Some? && Fitting(cfg.txLen, cfg.entries[e].name)
    requires forall x :: x in Listed(cfg.entries[e].system.value, m, 0, cfg.blank) ==> Fitting(cfg.txLen, x.alias)
    ensures var entry := cfg.entries[e];
      Concat(Pieces(cfg, m, echo, HelpPage(e))) ==
        Opening(echo) + WithSpace(entry.name) + ("[s" + Decimal(entry.id) + "]\n")
        + Joined(HelpLines(Listed(entry.system.value, m, 0, cfg.blank))) + "\U{03}"
  {
    HelpPiecesBytes(cfg, m, echo, cfg.entries[e]);
  }

  // ---------- The echo ----------

  lemma {:induction false} TrimLenIs(core: string, tail: string)
    requires core == "" || !IsSpace(core[|core| - 1])
    requires forall i :: 0 <= i < |tail| ==> IsSpace(tail[i])
    ensures TrimLen(core + tail) == |core|
    decreases |tail|
  {
    if tail == "" {
      NilUnit(core);
    } else {
      var s := core + tail;
      assert s[..|s| - 1] == core + tail[..|tail| - 1];
      TrimLenIs(core, tail[..|tail| - 1]);
    }
  }

  /** The echo leaves out the delimiters in front and the white space behind; its length is that of the rest
      modulo 256. */
  lemma EchoIs(lead: string, core: string, tail: string)
    requires Blank(lead) && core != "" && !IsDelimiter(core[0]) && !IsSpace(core[|core| - 1])
    requires forall i :: 0 <= i < |tail| ==> IsSpace(tail[i])
    ensures Echo(lead + (core + tail)) == core[..|core| % 0x100]
  {
    DropBlankPrefix(lead, core + tail);
    assert DropBlank(core + tail) == core + tail;
    TrimLenIs(core, tail);
    Low8IsLess(|core|);
    assert (core + tail)[..|core| % 0x100] == core[..|core| % 0x100];
  }
}
