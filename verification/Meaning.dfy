// What typed text means: delimiter noise changes nothing but the echo, and every operation,
// printed as a command, is parsed back to exactly itself.

module Meaning {
  import opened Basics
  import opened Text
  import opened Systems
  import opened Dispatch
  import opened SystemCore
  import opened Commands

  // ---------- Delimiter noise ----------

  /** Replacing a delimiter run by another non-empty one, or changing a leading or trailing run, keeps the
      new memory and the reply: at most the echo differs. */
  lemma NoiseKeepsMeaning<S>(cfg: Config<S>, m: seq<S>, a: string, d: string, d': string, b: string)
    requires Valid(cfg, |m|) && Blank(d) && Blank(d')
    requires (d != "" && d' != "") || Tokens(a) == [] || Tokens(b) == []
    ensures Interpret(cfg, m, a + d + b) == Interpret(cfg, m, a + d' + b)
  {
    NoiseInvariance(a, d, d', b);
  }

  // ---------- Printing commands ----------

  function ArgText(args: seq<int32>): string {
    if args == [] then ""
    else if |args| == 1 then Numeral(args[0])
    else Numeral(args[0]) + "," + ArgText(args[1..])
  }

  function Member(op: Op): string {
    match op
    case WriteInput(j, _) => "x" + Decimal(j)
    case ReadInput(j) => "x" + Decimal(j)
    case ReadOutput(j) => "y" + Decimal(j)
    case Call(j, _) => "f" + Decimal(j)
  }

  function Operand(op: Op): string {
    match op
    case WriteInput(_, v) => " = " + Numeral(v)
    case ReadInput(_) => ""
    case ReadOutput(_) => ""
    case Call(_, args) => "(" + ArgText(args) + ")"
  }

  /** `s<i>.x<j> = v`, `s<i>.x<j>`, `s<i>.y<j>` or `s<i>.f<j>(a,b,...)`. */
  function Render(id: u8, op: Op): string {
    "s" + Decimal(id) + "." + (Member(op) + Operand(op))
  }

  // ---------- Their tokens ----------

  lemma DigitIsSolid(c: char)
    requires IsDigit(c)
    ensures !IsDelimiter(c)
  {}

  lemma DecimalSolid(n: nat)
    ensures Solid(Decimal(n))
  {
    var s := Decimal(n);
    forall i | 0 <= i < |s| ensures !IsDelimiter(s[i]) {
      DigitIsSolid(s[i]);
    }
  }

  lemma NumeralSolid(v: int)
    ensures Solid(Numeral(v))
  {
    DecimalSolid(Abs(v));
    if v < 0 {
      PrefixedSolid('-', Decimal(Abs(v)));
    }
  }

  lemma PrefixedSolid(c: char, s: string)
    requires !IsDelimiter(c) && Solid(s)
    ensures Solid([c] + s)
  {}

  lemma TokensOne(t: string)
    requires t != "" && Solid(t)
    ensures Tokens(t) == [t]
  {
    NilUnit(t);
    TokensCons(t, "");
    NilUnit([t]);
  }

  /** A token, a delimiter run, and the rest. */
  lemma TokensThen(t: string, d: string, rest: string)
    requires t != "" && Solid(t) && d != "" && Blank(d)
    ensures Tokens(t + d + rest) == [t] + Tokens(rest)
  {
    TokensAround(t, d, rest);
    TokensOne(t);
  }

  function Numerals(args: seq<int32>): seq<string> {
    if args == [] then [] else [Numeral(args[0])] + Numerals(args[1..])
  }

  lemma {:induction false} ArgTokens(args: seq<int32>)
    ensures Tokens(ArgText(args)) == Numerals(args)
  {
    if args != [] {
      NumeralSolid(args[0]);
      if |args| == 1 {
        TokensOne(Numeral(args[0]));
        assert args[1..] == [];
        NilUnit([Numeral(args[0])]);
      } else {
        ArgTokens(args[1..]);
        TokensThen(Numeral(args[0]), ",", ArgText(args[1..]));
      }
    }
  }

  function OperandTokens(op: Op): seq<string> {
    match op
    case WriteInput(_, v) => [Numeral(v)]
    case Call(_, args) => Numerals(args)
    case _ => []
  }

  lemma MemberSolid(op: Op)
    ensures Solid(Member(op)) && Member(op) != ""
  {
    DecimalSolid(op.id);
    PrefixedSolid('x', Decimal(op.id));
    PrefixedSolid('y', Decimal(op.id));
    PrefixedSolid('f', Decimal(op.id));
  }

  lemma MemberTokens(op: Op)
    ensures Tokens(Member(op) + Operand(op)) == [Member(op)] + OperandTokens(op)
  {
    MemberSolid(op);
    match op
    case WriteInput(_, v) =>
      NumeralSolid(v);
      TokensOne(Numeral(v));
      Assoc(Member(op), " = ", Numeral(v));
      TokensThen(Member(op), " = ", Numeral(v));
    case Call(_, args) =>
      ArgTokens(args);
      TokensTrailing(ArgText(args), ")");
      assert Member(op) + Operand(op) == Member(op) + "(" + (ArgText(args) + ")");
      TokensThen(Member(op), "(", ArgText(args) + ")");
    case _ =>
      NilUnit(Member(op));
      TokensOne(Member(op));
      NilUnit([Member(op)]);
  }

  function SystemName(id: nat): string {
    "s" + Decimal(id)
  }

  lemma RenderTokens(id: u8, op: Op)
    ensures Tokens(Render(id, op)) == [SystemName(id)] + ([Member(op)] + OperandTokens(op))
  {
    DecimalSolid(id);
    PrefixedSolid('s', Decimal(id));
    MemberTokens(op);
    TokensThen(SystemName(id), ".", Member(op) + Operand(op));
  }

  // ---------- Parsing them back ----------

  lemma StrtolDecimal(n: nat)
    ensures Strtol(Decimal(n)) == Scan(Saturate(n), |Decimal(n)|)
  {
    NilUnit(Decimal(n));
    DigitRunOf(Decimal(n), "");
    DecimalValue(n);
    assert Decimal(n)[0..][..|Decimal(n)|] == Decimal(n);
  }

  /** A numbered system is looked up by the low 8 bits of its number, as 32 bits hold it. */
  lemma NumberedSystem<S>(entries: seq<Entry<S>>, n: nat)
    ensures FindSystem(entries, SystemName(n)) ==
      var i := FindById(entries, Low8(Saturate(n)));
      if i.Some? && entries[i.value].system.Some? then i else None
  {
    StrtolDecimal(n);
    assert SystemName(n)[1..] == Decimal(n);
  }

  lemma LetterAndNumber(c: char, j: u8)
    ensures var t := [c] + Decimal(j);
      |t| >= 2 && IsDigit(t[1]) && t[0] == c && Low8(Strtol(t[1..]).val) == j
  {
    StrtolDecimal(j);
    Low8Small(j);
    assert ([c] + Decimal(j))[1..] == Decimal(j);
  }

  function MemberCmd(op: Op): CmdType {
    match op case ReadOutput(_) => OutputCmd case Call(_, _) => FuncCmd case _ => InputCmd
  }

  lemma MemberOf(t: string, j: u8)
    requires |t| >= 2 && IsDigit(t[1]) && Low8(Strtol(t[1..]).val) == j
    ensures t[0] == 'x' ==> ParseMember(t) == Some((InputCmd, j))
    ensures t[0] == 'y' ==> ParseMember(t) == Some((OutputCmd, j))
    ensures t[0] == 'f' ==> ParseMember(t) == Some((FuncCmd, j))
  {}

  function Letter(op: Op): char {
    match op case ReadOutput(_) => 'y' case Call(_, _) => 'f' case _ => 'x'
  }

  lemma NumberedMember(op: Op)
    ensures ParseMember(Member(op)) == Some((MemberCmd(op), op.id))
  {
    var t := [Letter(op)] + Decimal(op.id);
    assert Member(op) == t;
    LetterAndNumber(Letter(op), op.id);
    MemberOf(t, op.id);
  }

  /** The member that the help page prints for an alias is one that the console reads back. */
  lemma HelpMemberParses(info: CmdInfo)
    ensures var text := HelpMember(info);
      && text[0] == '['
      && ParseMember(text[1..]) == Some((if info.cmd.UnknownCmd? then OutputCmd else info.cmd, info.id))
  {
    var c := match info.cmd case FuncCmd => 'f' case InputCmd => 'x' case _ => 'y';
    var t := [c] + Decimal(info.id);
    assert HelpMember(info)[1..] == t;
    LetterAndNumber(c, info.id);
    MemberOf(t, info.id);
  }

  lemma NumeralScan(v: int32)
    ensures Strtol(Numeral(v)) == Scan(v, |Numeral(v)|)
  {
    NilUnit(Numeral(v));
    StrtolNumeral(v, "");
  }

  /** Every token is one whole number. */
  ghost predicate Spelled(tokens: seq<string>, args: seq<int32>) {
    |tokens| == |args|
      && forall i :: 0 <= i < |args| ==> tokens[i] != "" && Strtol(tokens[i]) == Scan(args[i], |tokens[i]|)
  }

  lemma {:induction false} NumeralsSpelled(args: seq<int32>)
    ensures Spelled(Numerals(args), args)
  {
    if args != [] {
      NumeralsSpelled(args[1..]);
      NumeralScan(args[0]);
      var ts := Numerals(args);
      assert ts[1..] == Numerals(args[1..]);
      assert forall i :: 0 < i < |args| ==> ts[i] == ts[1..][i - 1] && args[i] == args[1..][i - 1];
    }
  }

  lemma {:induction false} ParseSpelled(tokens: seq<string>, args: seq<int32>, room: nat)
    requires Spelled(tokens, args)
    ensures ParseArgs(tokens, room) == Args(Cut(args, room), true)
    decreases room
  {
    if args != [] && room > 0 {
      ParseSpelled(tokens[1..], args[1..], room - 1);
      assert tokens[0][|tokens[0]|..] == "";
      CutCons(args, room);
    } else {
      assert Cut(args, room) == [];
    }
  }

  lemma CutCons(args: seq<int32>, room: nat)
    requires args != [] && room > 0
    ensures [args[0]] + Cut(args[1..], room - 1) == Cut(args, room)
  {}

  lemma ParseNumerals(args: seq<int32>, room: nat)
    ensures ParseArgs(Numerals(args), room) == Args(Cut(args, room), true)
  {
    NumeralsSpelled(args);
    ParseSpelled(Numerals(args), args, room);
  }

  /** What of an operation survives the bounded argument buffer: everything, unless a call has too many arguments. */
  function Bounded<S>(cfg: Config<S>, op: Op): Op {
    match op
    case Call(j, args) => Call(j, Cut(args, cfg.argsCount))
    case _ => op
  }

  /** The command names a present system, and no alias of that system spells its member. */
  ghost predicate Addresses<S>(cfg: Config<S>, m: seq<S>, id: u8, op: Op)
    requires Valid(cfg, |m|)
  {
    var entry := FindById(cfg.entries, id);
    entry.Some? && cfg.entries[entry.value].system.Some?
      && FindAlias(cfg.entries[entry.value].system.value, m, Member(op), 0, NO_INFO).None?
  }

  lemma ClearIsNotSystem(id: nat)
    ensures !("clear" <= SystemName(id))
  {
    assert SystemName(id)[0] == 's' && "clear"[0] == 'c';
  }

  lemma OperandParses<S>(cfg: Config<S>, entry: nat, op: Op)
    ensures ByMember(cfg, entry, MemberCmd(op), op.id, None, OperandTokens(op)).cmd == Operate(entry, Bounded(cfg, op))
  {
    match op
    case WriteInput(_, v) =>
      NilUnit(Numeral(v));
      StrtolNumeral(v, "");
    case Call(_, args) => ParseNumerals(args, cfg.argsCount);
    case _ =>
  }

  lemma MemberParses<S>(cfg: Config<S>, m: seq<S>, entry: nat, sys: System<S>, op: Op)
    requires Fits(Leaves(sys), |m|) && FindAlias(sys, m, Member(op), 0, NO_INFO).None?
    ensures ParseOn(cfg, m, entry, sys, [Member(op)] + OperandTokens(op)).cmd == Operate(entry, Bounded(cfg, op))
  {
    var tokens := [Member(op)] + OperandTokens(op);
    assert tokens[0] == Member(op) && tokens[1..] == OperandTokens(op);
    NumberedMember(op);
    OperandParses(cfg, entry, op);
  }

  /** The command round trip: a printed operation is parsed to exactly that operation on the first table
      entry with its id. */
  lemma CommandRoundTrip<S>(cfg: Config<S>, m: seq<S>, id: u8, op: Op)
    requires Valid(cfg, |m|) && Addresses(cfg, m, id, op)
    ensures Parse(cfg, m, Tokens(Render(id, op))).cmd == Operate(FindById(cfg.entries, id).value, Bounded(cfg, op))
  {
    var entry := FindById(cfg.entries, id).value;
    var tail := [Member(op)] + OperandTokens(op);
    RenderTokens(id, op);
    ClearIsNotSystem(id);
    Low8Small(id);
    NumberedSystem(cfg.entries, id);
    var tokens := [SystemName(id)] + tail;
    assert tokens[0] == SystemName(id) && tokens[1..] == tail && |tokens| > 1;
    MemberParses(cfg, m, entry, cfg.entries[entry].system.value, op);
  }

  lemma NothingCut<S>(cfg: Config<S>, op: Op)
    requires op.Call? ==> |op.args| <= cfg.argsCount
    ensures Bounded(cfg, op) == op
  {
    if op.Call? {
      assert Cut(op.args, cfg.argsCount) == op.args;
    }
  }

  lemma Unbracketed(p: string, c: string, d: string, t: string)
    ensures p + "." + ((c + d) + t) == p + ("." + c) + d + t
  {}

  /** The printed text, letter by letter. */
  lemma RenderText(id: u8, j: u8, v: int32, args: seq<int32>)
    ensures Render(id, WriteInput(j, v)) == "s" + Decimal(id) + ".x" + Decimal(j) + (" = " + Numeral(v))
    ensures Render(id, ReadInput(j)) == "s" + Decimal(id) + ".x" + Decimal(j) + ""
    ensures Render(id, ReadOutput(j)) == "s" + Decimal(id) + ".y" + Decimal(j) + ""
    ensures Render(id, Call(j, args)) == "s" + Decimal(id) + ".f" + Decimal(j) + ("(" + ArgText(args) + ")")
  {
    var p := "s" + Decimal(id);
    Unbracketed(p, "x", Decimal(j), " = " + Numeral(v));
    Unbracketed(p, "x", Decimal(j), "");
    Unbracketed(p, "y", Decimal(j), "");
    Unbracketed(p, "f", Decimal(j), "(" + ArgText(args) + ")");
    assert "." + "x" == ".x" && "." + "y" == ".y" && "." + "f" == ".f";
  }

  /** Arguments are printed in order, with commas between them. */
  lemma ArgTextIs(a: int32, args: seq<int32>)
    ensures ArgText([]) == "" && ArgText([a]) == Numeral(a)
    ensures args != [] ==> ArgText([a] + args) == Numeral(a) + "," + ArgText(args)
  {
    assert ([a] + args)[1..] == args;
  }

  /** What processing a printed command does, operation by operation: a write leaves what the system's write
      leaves and answers 0, or the error it reports; the reads leave everything and answer what the system
      reads; a call leaves what the system's call leaves and answers 0, or the error it reports. */
  lemma RenderedCommandRuns<S>(cfg: Config<S>, m: seq<S>, id: u8, op: Op)
    requires Valid(cfg, |m|) && Addresses(cfg, m, id, op)
    requires op.Call? ==> |op.args| <= cfg.argsCount
    ensures var sys := cfg.entries[FindById(cfg.entries, id).value].system.value;
      var o := Interpret(cfg, m, Render(id, op));
      match op
      case WriteInput(j, v) =>
        var e := GuardedWrite(sys, m, j, v);
        o.mem == e.mem && o.reply == Response(if e.status == 0 then Value(0) else Err(e.status))
      case ReadInput(j) => o.mem == m && o.reply == Response(GuardedRead(sys, m, Input, j))
      case ReadOutput(j) => o.mem == m && o.reply == Response(GuardedRead(sys, m, Output, j))
      case Call(j, args) =>
        var e := GuardedInvoke(sys, m, j, args);
        o.mem == e.mem && o.reply == Response(if e.status == 0 then Value(0) else Err(e.status))
  {
    CommandRoundTrip(cfg, m, id, op);
    NothingCut(cfg, op);
  }
}
