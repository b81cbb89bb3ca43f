// What lines do to systems: commands typed by alias, by name and by number, on any driver and on the shipped leaves.

module CommandLaws {
  import opened Basics
  import opened Text
  import opened Systems
  import opened Dispatch
  import opened SystemCore
  import opened Handlers
  import opened LeafModules
  import opened Commands
  import opened Meaning

  // ---------- Finding an alias ----------

  /** The record after the look-ups of all aliases before `i`. */
  ghost function Carried<S>(sys: System<S>, m: seq<S>, i: nat): CmdInfo
    requires Fits(Leaves(sys), |m|) && i <= Count(sys, m, Alias)
  {
    if i == 0 then CmdInfo(None, UnknownCmd, 0, false, 0) else GuardedAlias(sys, m, i - 1, Carried(sys, m, i - 1)).info
  }

  /** The guarded look-up of alias `i`, on the record as the look-ups before left it. */
  ghost function Looked<S>(sys: System<S>, m: seq<S>, i: nat): Named
    requires Fits(Leaves(sys), |m|) && i < Count(sys, m, Alias)
  {
    GuardedAlias(sys, m, i, Carried(sys, m, i))
  }

  ghost predicate Spells<S>(sys: System<S>, m: seq<S>, name: string, i: nat)
    requires Fits(Leaves(sys), |m|) && i < Count(sys, m, Alias)
  {
    Looked(sys, m, i).status == OK && Looked(sys, m, i).info.alias == Some(name)
  }

  /** `i` is the first alias whose look-up succeeds and spells the name. */
  ghost predicate FirstSpelling<S>(sys: System<S>, m: seq<S>, name: string, i: nat)
    requires Fits(Leaves(sys), |m|)
  {
    && i < Count(sys, m, Alias) && Spells(sys, m, name, i)
    && forall j: nat :: j < i ==> !Spells(sys, m, name, j)
  }

  lemma {:induction false} FindsFrom<S>(sys: System<S>, m: seq<S>, name: string, i: nat) returns (k: nat)
    requires Fits(Leaves(sys), |m|) && i <= Count(sys, m, Alias)
    requires forall j: nat :: j < i ==> !Spells(sys, m, name, j)
    ensures match FindAlias(sys, m, name, i, Carried(sys, m, i))
      case Some(info) => FirstSpelling(sys, m, name, k) && info == Looked(sys, m, k).info
      case None => forall j: nat :: j < Count(sys, m, Alias) ==> !Spells(sys, m, name, j)
    decreases Count(sys, m, Alias) - i
  {
    k := i;
    if i < Count(sys, m, Alias) && !Spells(sys, m, name, i) {
      k := FindsFrom(sys, m, name, i + 1);
    }
  }

  /** The search finds the first alias below the count whose look-up succeeds and spells the name, if there is
      one, and nothing otherwise. */
  lemma FindsFirst<S>(sys: System<S>, m: seq<S>, name: string)
    requires Fits(Leaves(sys), |m|)
    ensures FindAlias(sys, m, name, 0, NO_INFO).Some?
      <==> exists i: nat :: i < Count(sys, m, Alias) && Spells(sys, m, name, i)
    ensures forall i: nat :: FirstSpelling(sys, m, name, i) ==> FindAlias(sys, m, name, 0, NO_INFO) == Some(Looked(sys, m, i).info)
  {
    var k := FindsFrom(sys, m, name, 0);
    forall i: nat | FirstSpelling(sys, m, name, i)
      ensures FindAlias(sys, m, name, 0, NO_INFO) == Some(Looked(sys, m, i).info)
    {
      assert Spells(sys, m, name, i);
      OnlyOneFirst(sys, m, name, i, k);
    }
  }

  lemma OnlyOneFirst<S>(sys: System<S>, m: seq<S>, name: string, i: nat, k: nat)
    requires Fits(Leaves(sys), |m|) && FirstSpelling(sys, m, name, i) && FirstSpelling(sys, m, name, k)
    ensures i == k
  {}

  // ---------- Finding a system by its name ----------

  /** A token that can only be the name of a system. */
  predicate SystemWord(s: string) {
    && s != "" && s[0] != '?' && !("clear" <= s)
    && !(|s| >= 2 && s[0] == 's' && IsDigit(s[1]))
  }

  /** `e` is the first entry with that name. */
  ghost predicate Named<S>(entries: seq<Entry<S>>, name: string, e: nat) {
    && e < |entries| && entries[e].name == Some(name)
    && forall i :: 0 <= i < e ==> entries[i].name != Some(name)
  }

  /** A name means the first entry that has it, and no system if that entry has none or there is no such entry. */
  lemma NamedSystem<S>(entries: seq<Entry<S>>, name: string)
    requires SystemWord(name)
    ensures forall e: nat :: Named(entries, name, e) ==>
      FindSystem(entries, name) == if entries[e].system.Some? then Some(e) else None
    ensures (forall i :: 0 <= i < |entries| ==> entries[i].name != Some(name)) ==> FindSystem(entries, name) == None
  {}

  // ---------- A line that starts with a system ----------

  lemma MemberLine<S>(cfg: Config<S>, m: seq<S>, text: string, name: string, t: string, rest: seq<string>, e: nat)
    requires Valid(cfg, |m|) && SystemWord(name) && FindSystem(cfg.entries, name) == Some(e)
    requires Tokens(text) == [name] + ([t] + rest)
    ensures Interpret(cfg, m, text) ==
      Execute(cfg, m, ParseOn(cfg, m, e, cfg.entries[e].system.value, [t] + rest).cmd)
  {
    var ts := [name] + ([t] + rest);
    assert ts[0] == name && ts[1..] == [t] + rest && |ts| > 1;
  }

  /** The token of an alias goes before everything a member token could mean. */
  lemma AliasResolved<S>(cfg: Config<S>, m: seq<S>, e: nat, sys: System<S>, t: string, rest: seq<string>, i: nat)
    requires Fits(Leaves(sys), |m|) && FirstSpelling(sys, m, t, i)
    ensures var info := Looked(sys, m, i).info;
      ParseOn(cfg, m, e, sys, [t] + rest) ==
        ByMember(cfg, e, info.cmd, info.id, if info.hasPreset then Some(info.preset) else None, rest)
  {
    FindsFirst(sys, m, t);
    assert ([t] + rest)[0] == t && ([t] + rest)[1..] == rest;
  }

  /** What an input that a line resolved to is asked, and what is answered: a preset or a number is written;
      without either the input is read; a third token that is no number is refused. */
  lemma InputRuns<S>(cfg: Config<S>, m: seq<S>, e: nat, sys: System<S>, id: u8, preset: Option<int32>, rest: seq<string>)
    requires Valid(cfg, |m|) && SystemOf(cfg, e) == Some(sys)
    ensures Fits(Leaves(sys), |m|)
    ensures var o := Execute(cfg, m, ByMember(cfg, e, InputCmd, id, preset, rest).cmd);
      if preset.Some? then WroteInput(sys, m, id, preset.value, o)
      else if rest == [] then o == Outcome(m, Response(GuardedRead(sys, m, Input, id)))
      else if Strtol(rest[0]).used == 0 then o == Outcome(m, Response(Err(2)))
      else WroteInput(sys, m, id, Strtol(rest[0]).val, o)
  {}

  /** An output is read, whatever follows. */
  lemma OutputRuns<S>(cfg: Config<S>, m: seq<S>, e: nat, sys: System<S>, id: u8, preset: Option<int32>, rest: seq<string>)
    requires Valid(cfg, |m|) && SystemOf(cfg, e) == Some(sys)
    ensures Fits(Leaves(sys), |m|)
    ensures Execute(cfg, m, ByMember(cfg, e, OutputCmd, id, preset, rest).cmd)
      == Outcome(m, Response(GuardedRead(sys, m, Output, id)))
  {}

  /** A function is called with the numbers that follow, which the argument buffer then holds. */
  lemma FunctionRuns<S>(cfg: Config<S>, m: seq<S>, e: nat, sys: System<S>, id: u8, preset: Option<int32>,
                        rest: seq<string>, args: seq<int32>)
    requires Valid(cfg, |m|) && SystemOf(cfg, e) == Some(sys) && Spelled(rest, args) && |args| <= cfg.argsCount
    ensures Fits(Leaves(sys), |m|)
    ensures var p := ByMember(cfg, e, FuncCmd, id, preset, rest);
      CalledFunction(sys, m, id, args, Execute(cfg, m, p.cmd)) && p.scratch == args
  {
    ParseSpelled(rest, args, cfg.argsCount);
    assert Cut(args, cfg.argsCount) == args;
  }

  /** If what should be a number is none, nothing is called. */
  lemma FunctionRefused<S>(cfg: Config<S>, m: seq<S>, e: nat, id: u8, preset: Option<int32>, rest: seq<string>, k: nat)
    requires Valid(cfg, |m|) && k < |rest| && k < cfg.argsCount && Strtol(rest[k]).used == 0
    requires forall i :: 0 <= i < k ==> 0 < |rest[i]| == Strtol(rest[i]).used
    ensures Execute(cfg, m, ByMember(cfg, e, FuncCmd, id, preset, rest).cmd) == Outcome(m, Response(Err(2)))
  {
    ArgsRefused(rest, k, cfg.argsCount);
  }

  /** The system's write was made, and its status answered. */
  ghost predicate WroteInput<S>(sys: System<S>, m: seq<S>, id: u8, v: int32, o: Outcome<S>)
    requires Fits(Leaves(sys), |m|)
  {
    var e := GuardedWrite(sys, m, id, v);
    o.mem == e.mem && o.reply == Response(if e.status == 0 then Value(0) else Err(e.status))
  }

  ghost predicate CalledFunction<S>(sys: System<S>, m: seq<S>, id: u8, args: seq<int32>, o: Outcome<S>)
    requires Fits(Leaves(sys), |m|)
  {
    var e := GuardedInvoke(sys, m, id, args);
    o.mem == e.mem && o.reply == Response(if e.status == 0 then Value(0) else Err(e.status))
  }

  lemma {:induction false} ArgsRefused(tokens: seq<string>, k: nat, room: nat)
    requires k < |tokens| && k < room && Strtol(tokens[k]).used == 0
    requires forall i :: 0 <= i < k ==> 0 < |tokens[i]| == Strtol(tokens[i]).used
    ensures !ParseArgs(tokens, room).ok
    decreases k
  {
    if k > 0 {
      assert tokens[0][|tokens[0]|..] == "";
      ArgsRefused(tokens[1..], k - 1, room - 1);
    }
  }

  /** A command typed by alias does what the record of the first alias with that spelling says. */
  lemma AliasLine<S>(cfg: Config<S>, m: seq<S>, text: string, name: string, t: string, rest: seq<string>,
                     e: nat, sys: System<S>, i: nat)
    requires Valid(cfg, |m|) && SystemWord(name) && Named(cfg.entries, name, e) && cfg.entries[e].system == Some(sys)
    requires Tokens(text) == [name] + ([t] + rest) && FirstSpelling(sys, m, t, i)
    ensures var info := Looked(sys, m, i).info;
      Interpret(cfg, m, text) == Execute(cfg, m,
        ByMember(cfg, e, info.cmd, info.id, if info.hasPreset then Some(info.preset) else None, rest).cmd)
  {
    NamedSystem(cfg.entries, name);
    MemberLine(cfg, m, text, name, t, rest, e);
    AliasResolved(cfg, m, e, sys, t, rest, i);
  }

  // ---------- The aliases of a digital leaf ----------

  /** All five names are there, are single tokens, and differ. */
  ghost predicate FiveNames(n: Names) {
    && n.state.Some? && n.target.Some? && n.turnOn.Some? && n.turnOff.Some? && n.toggle.Some?
    && (forall i :: 0 <= i < 5 ==> NameOf(n, i) != "" && Solid(NameOf(n, i)))
    && (forall i, j :: 0 <= i < j < 5 ==> NameOf(n, i) != NameOf(n, j))
  }

  ghost function NameOf(n: Names, i: nat): string
    requires n.state.Some? && n.target.Some? && n.turnOn.Some? && n.turnOff.Some? && n.toggle.Some?
  {
    if i == 0 then n.state.value else if i == 1 then n.target.value
    else if i == 2 then n.turnOn.value else if i == 3 then n.turnOff.value else n.toggle.value
  }

  /** A console entry reached by its name, over one digital leaf with a working, writable device. */
  ghost predicate Lamp(cfg: Config<Context>, m: seq<Context>, name: string, e: nat, ctx: nat) {
    && Valid(cfg, |m|) && ctx < |m|
    && SystemWord(name) && Solid(name) && Named(cfg.entries, name, e)
    && cfg.entries[e].system == Some(Leaf(Module(DIGITAL, ctx)))
    && !m[ctx].device.readOnly && m[ctx].device.error == 0 && m[ctx].device.value in {0, 1}
    && FiveNames(m[ctx].names)
  }

  function Switch(ctx: nat): System<Context> {
    Leaf(Module(DIGITAL, ctx))
  }

  /** The record each of the five look-ups leaves, but for a preset value that it may not touch. */
  lemma SwitchLooks(m: seq<Context>, ctx: nat, i: nat)
    requires ctx < |m| && !m[ctx].device.readOnly && i < 5 && FiveNames(m[ctx].names)
    ensures Fits(Leaves(Switch(ctx)), |m|) && Count(Switch(ctx), m, Alias) == 5
    ensures var r := Looked(Switch(ctx), m, i);
      && r.status == OK && r.info.alias == Some(NameOf(m[ctx].names, i)) && r.info.id == 0
      && r.info.cmd == (if i == 0 then OutputCmd else if i == 4 then FuncCmd else InputCmd)
      && r.info.hasPreset == (i == 2 || i == 3)
      && (i == 2 ==> r.info.preset == 1) && (i == 3 ==> r.info.preset == 0)
  {}

  lemma SwitchSpells(m: seq<Context>, ctx: nat, i: nat)
    requires ctx < |m| && !m[ctx].device.readOnly && i < 5 && FiveNames(m[ctx].names)
    ensures Fits(Leaves(Switch(ctx)), |m|) && FirstSpelling(Switch(ctx), m, NameOf(m[ctx].names, i), i)
  {
    SwitchLooks(m, ctx, i);
    forall j: nat | j < i ensures !Spells(Switch(ctx), m, NameOf(m[ctx].names, i), j) {
      SwitchLooks(m, ctx, j);
      assert NameOf(m[ctx].names, j) != NameOf(m[ctx].names, i);
    }
  }

  /** `<name>.<alias>` and whatever follows it. */
  lemma LampLine(cfg: Config<Context>, m: seq<Context>, name: string, e: nat, ctx: nat, i: nat, text: string, rest: seq<string>)
    requires Lamp(cfg, m, name, e, ctx) && i < 5
    requires Tokens(text) == [name] + ([NameOf(m[ctx].names, i)] + rest)
    ensures Fits(Leaves(Switch(ctx)), |m|) && Count(Switch(ctx), m, Alias) == 5
    ensures var info := Looked(Switch(ctx), m, i).info;
      Interpret(cfg, m, text) == Execute(cfg, m,
        ByMember(cfg, e, info.cmd, info.id, if info.hasPreset then Some(info.preset) else None, rest).cmd)
  {
    SwitchLooks(m, ctx, i);
    SwitchSpells(m, ctx, i);
    AliasLine(cfg, m, text, name, NameOf(m[ctx].names, i), rest, e, Switch(ctx), i);
  }

  lemma AliasTokens(name: string, t: string)
    requires name != "" && Solid(name) && t != "" && Solid(t)
    ensures Tokens(name + "." + t) == [name] + ([t] + [])
  {
    TokensOne(t);
    TokensThen(name, ".", t);
    NilUnit([t]);
  }

  lemma AssignTokens(name: string, t: string, v: int32)
    requires name != "" && Solid(name) && t != "" && Solid(t)
    ensures Tokens(name + "." + (t + " = " + Numeral(v))) == [name] + ([t] + [Numeral(v)])
  {
    NumeralSolid(v);
    TokensOne(Numeral(v));
    TokensThen(t, " = ", Numeral(v));
    TokensThen(name, ".", t + " = " + Numeral(v));
  }

  /** Target and device on or off together. */
  function Set(m: seq<Context>, ctx: nat, b: int32): seq<Context>
    requires ctx < |m|
  {
    m[ctx := m[ctx].(target := b, device := m[ctx].device.(value := b))]
  }

  lemma SwitchWrites(m: seq<Context>, ctx: nat, v: int32)
    requires ctx < |m| && !m[ctx].device.readOnly && m[ctx].device.error == 0
    ensures Fits(Leaves(Switch(ctx)), |m|)
    ensures GuardedWrite(Switch(ctx), m, 0, v) == Effect(Set(m, ctx, if v == 0 then 0 else 1), OK)
  {
    DeviceAfterWrite(m[ctx], 0, v);
  }

  lemma SwitchToggles(m: seq<Context>, ctx: nat)
    requires ctx < |m| && !m[ctx].device.readOnly && m[ctx].device.error == 0 && m[ctx].device.value in {0, 1}
    ensures Fits(Leaves(Switch(ctx)), |m|)
    ensures GuardedInvoke(Switch(ctx), m, 0, []) == Effect(Set(m, ctx, 1 - m[ctx].device.value), OK)
  {
    DeviceAfterToggle(m[ctx], 0, []);
  }

  /** Turning on makes target and device 1, and answers 0. */
  lemma TurnOnLine(cfg: Config<Context>, m: seq<Context>, name: string, e: nat, ctx: nat)
    requires Lamp(cfg, m, name, e, ctx)
    ensures Interpret(cfg, m, name + "." + m[ctx].names.turnOn.value) == Outcome(Set(m, ctx, 1), Response(Value(0)))
  {
    var t := NameOf(m[ctx].names, 2);
    AliasTokens(name, t);
    LampLine(cfg, m, name, e, ctx, 2, name + "." + t, []);
    SwitchLooks(m, ctx, 2);
    InputRuns(cfg, m, e, Switch(ctx), 0, Some(1), []);
    SwitchWrites(m, ctx, 1);
  }

  /** Turning off makes target and device 0, and answers 0. */
  lemma TurnOffLine(cfg: Config<Context>, m: seq<Context>, name: string, e: nat, ctx: nat)
    requires Lamp(cfg, m, name, e, ctx)
    ensures Interpret(cfg, m, name + "." + m[ctx].names.turnOff.value) == Outcome(Set(m, ctx, 0), Response(Value(0)))
  {
    var t := NameOf(m[ctx].names, 3);
    AliasTokens(name, t);
    LampLine(cfg, m, name, e, ctx, 3, name + "." + t, []);
    SwitchLooks(m, ctx, 3);
    InputRuns(cfg, m, e, Switch(ctx), 0, Some(0), []);
    SwitchWrites(m, ctx, 0);
  }

  /** Toggling inverts the device, takes the target along, and answers 0. */
  lemma ToggleLine(cfg: Config<Context>, m: seq<Context>, name: string, e: nat, ctx: nat)
    requires Lamp(cfg, m, name, e, ctx)
    ensures Interpret(cfg, m, name + "." + m[ctx].names.toggle.value)
      == Outcome(Set(m, ctx, 1 - m[ctx].device.value), Response(Value(0)))
  {
    var t := NameOf(m[ctx].names, 4);
    AliasTokens(name, t);
    LampLine(cfg, m, name, e, ctx, 4, name + "." + t, []);
    SwitchLooks(m, ctx, 4);
    FunctionRuns(cfg, m, e, Switch(ctx), 0, None, [], []);
    SwitchToggles(m, ctx);
  }

  /** Assigning the target stores the truth of the number in target and device, and answers 0. */
  lemma AssignLine(cfg: Config<Context>, m: seq<Context>, name: string, e: nat, ctx: nat, v: int32)
    requires Lamp(cfg, m, name, e, ctx)
    ensures Interpret(cfg, m, name + "." + (m[ctx].names.target.value + " = " + Numeral(v)))
      == Outcome(Set(m, ctx, if v == 0 then 0 else 1), Response(Value(0)))
  {
    var t := NameOf(m[ctx].names, 1);
    AssignTokens(name, t, v);
    LampLine(cfg, m, name, e, ctx, 1, name + "." + (t + " = " + Numeral(v)), [Numeral(v)]);
    SwitchLooks(m, ctx, 1);
    InputRuns(cfg, m, e, Switch(ctx), 0, None, [Numeral(v)]);
    NumeralScan(v);
    SwitchWrites(m, ctx, v);
  }

  /** The two aliases without anything behind them: the device is read, and the target. */
  lemma ReadLines(cfg: Config<Context>, m: seq<Context>, name: string, e: nat, ctx: nat)
    requires Lamp(cfg, m, name, e, ctx)
    ensures Interpret(cfg, m, name + "." + m[ctx].names.state.value) == Outcome(m, Response(Value(m[ctx].device.value)))
    ensures Interpret(cfg, m, name + "." + m[ctx].names.target.value) == Outcome(m, Response(Value(m[ctx].target)))
  {
    var t, u := NameOf(m[ctx].names, 0), NameOf(m[ctx].names, 1);
    AliasTokens(name, t);
    AliasTokens(name, u);
    LampLine(cfg, m, name, e, ctx, 0, name + "." + t, []);
    LampLine(cfg, m, name, e, ctx, 1, name + "." + u, []);
    SwitchLooks(m, ctx, 0);
    SwitchLooks(m, ctx, 1);
    OutputRuns(cfg, m, e, Switch(ctx), 0, None, []);
    InputRuns(cfg, m, e, Switch(ctx), 0, None, []);
  }

  /** What is switched by alias is what the next lines show. */
  lemma SwitchThenShow(cfg: Config<Context>, m: seq<Context>, name: string, e: nat, ctx: nat, v: int32)
    requires Lamp(cfg, m, name, e, ctx)
    ensures var n := m[ctx].names;
      var on := Interpret(cfg, m, name + "." + n.turnOn.value).mem;
      var off := Interpret(cfg, m, name + "." + n.turnOff.value).mem;
      var toggled := Interpret(cfg, m, name + "." + n.toggle.value).mem;
      && Interpret(cfg, on, name + "." + n.state.value).reply == Response(Value(1))
      && Interpret(cfg, on, name + "." + n.target.value).reply == Response(Value(1))
      && Interpret(cfg, off, name + "." + n.state.value).reply == Response(Value(0))
      && Interpret(cfg, off, name + "." + n.target.value).reply == Response(Value(0))
      && Interpret(cfg, toggled, name + "." + n.state.value).reply == Response(Value(1 - m[ctx].device.value))
      && Interpret(cfg, toggled, name + "." + n.target.value).reply == Response(Value(1 - m[ctx].device.value))
  {
    TurnOnLine(cfg, m, name, e, ctx);
    TurnOffLine(cfg, m, name, e, ctx);
    ToggleLine(cfg, m, name, e, ctx);
    ReadLines(cfg, Set(m, ctx, 1), name, e, ctx);
    ReadLines(cfg, Set(m, ctx, 0), name, e, ctx);
    ReadLines(cfg, Set(m, ctx, 1 - m[ctx].device.value), name, e, ctx);
  }

  // ---------- Any shipped leaf: its device; an analog one: its target ----------

  /** A console entry reached by its name, over one shipped leaf, read-only or not, with or without an error. */
  ghost predicate Gauge(cfg: Config<Context>, m: seq<Context>, name: string, e: nat, l: Module<Context>) {
    && Valid(cfg, |m|) && l.ctx < |m| && IsModule(l)
    && SystemWord(name) && Solid(name) && Named(cfg.entries, name, e) && cfg.entries[e].system == Some(Leaf(l))
    && m[l.ctx].names.state.Some? && m[l.ctx].names.target.Some?
    && m[l.ctx].names.state.value != "" && Solid(m[l.ctx].names.state.value)
    && m[l.ctx].names.target.value != "" && Solid(m[l.ctx].names.target.value)
    && m[l.ctx].names.state != m[l.ctx].names.target
  }

  lemma GaugeLooks(m: seq<Context>, l: Module<Context>)
    requires l.ctx < |m| && IsModule(l)
    requires m[l.ctx].names.state.Some? && m[l.ctx].names.target.Some? && m[l.ctx].names.state != m[l.ctx].names.target
    ensures Fits(Leaves(Leaf(l)), |m|) && Count(Leaf(l), m, Alias) >= 1
    ensures FirstSpelling(Leaf(l), m, m[l.ctx].names.state.value, 0)
    ensures Looked(Leaf(l), m, 0).info.cmd == OutputCmd && Looked(Leaf(l), m, 0).info.id == 0
    ensures !m[l.ctx].device.readOnly ==>
      && FirstSpelling(Leaf(l), m, m[l.ctx].names.target.value, 1)
      && Looked(Leaf(l), m, 1).info.cmd == InputCmd && Looked(Leaf(l), m, 1).info.id == 0
      && !Looked(Leaf(l), m, 1).info.hasPreset
  {
    if !m[l.ctx].device.readOnly {
      assert Looked(Leaf(l), m, 0).info.alias == m[l.ctx].names.state;
      assert !Spells(Leaf(l), m, m[l.ctx].names.target.value, 0);
    }
  }

  /** The first alias shows the device, or its error, whatever the target is. */
  lemma GaugeLine(cfg: Config<Context>, m: seq<Context>, name: string, e: nat, l: Module<Context>)
    requires Gauge(cfg, m, name, e, l)
    ensures var d := m[l.ctx].device;
      Interpret(cfg, m, name + "." + m[l.ctx].names.state.value)
        == Outcome(m, Response(if d.error == 0 then Value(d.value) else Err(d.error)))
  {
    var t := m[l.ctx].names.state.value;
    GaugeLooks(m, l);
    AliasTokens(name, t);
    AliasLine(cfg, m, name + "." + t, name, t, [], e, Leaf(l), 0);
    var info := Looked(Leaf(l), m, 0).info;
    OutputRuns(cfg, m, e, Leaf(l), 0, if info.hasPreset then Some(info.preset) else None, []);
  }

  /** The second alias of a writable analog leaf shows the target. */
  lemma TargetLine(cfg: Config<Context>, m: seq<Context>, name: string, e: nat, l: Module<Context>)
    requires Gauge(cfg, m, name, e, l) && l.driver == ANALOG && !m[l.ctx].device.readOnly
    ensures Interpret(cfg, m, name + "." + m[l.ctx].names.target.value) == Outcome(m, Response(Value(m[l.ctx].target)))
  {
    var t := m[l.ctx].names.target.value;
    GaugeLooks(m, l);
    AliasTokens(name, t);
    AliasLine(cfg, m, name + "." + t, name, t, [], e, Leaf(l), 1);
    InputRuns(cfg, m, e, Leaf(l), 0, None, []);
  }

  /** An assignment to it sets target and device to the number, and answers 0, or the device's error. */
  lemma TargetAssignLine(cfg: Config<Context>, m: seq<Context>, name: string, e: nat, l: Module<Context>, v: int32)
    requires Gauge(cfg, m, name, e, l) && l.driver == ANALOG && !m[l.ctx].device.readOnly
    ensures var c := m[l.ctx];
      Interpret(cfg, m, name + "." + (c.names.target.value + " = " + Numeral(v)))
        == Outcome(m[l.ctx := c.(target := v, device := c.device.(value := v))],
                   Response(if c.device.error == 0 then Value(0) else Err(c.device.error)))
  {
    var t := m[l.ctx].names.target.value;
    GaugeLooks(m, l);
    AssignTokens(name, t, v);
    AliasLine(cfg, m, name + "." + (t + " = " + Numeral(v)), name, t, [Numeral(v)], e, Leaf(l), 1);
    InputRuns(cfg, m, e, Leaf(l), 0, None, [Numeral(v)]);
    NumeralScan(v);
    GaugeWrites(m, l, v);
  }

  lemma GaugeWrites(m: seq<Context>, l: Module<Context>, v: int32)
    requires l.ctx < |m| && l.driver == ANALOG && !m[l.ctx].device.readOnly
    ensures Fits(Leaves(Leaf(l)), |m|)
    ensures var c := m[l.ctx];
      GuardedWrite(Leaf(l), m, 0, v) == Effect(m[l.ctx := c.(target := v, device := c.device.(value := v))], c.device.error)
  {
    DeviceAfterWrite(m[l.ctx], 0, v);
  }
}
