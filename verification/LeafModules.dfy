// The analog and digital leaf systems over one-cell devices: handler tables, closure of their aliases,
// and what a write through a whole tree does and does not change.

module LeafModules {
  import opened Basics
  import opened Systems
  import opened Dispatch
  import opened SystemCore
  import opened Handlers

  /** A data-object device; a digital one holds 0 or 1. */
  datatype Device = Device(value: int32, error: Status, readOnly: bool)

  datatype Names = Names(state: Option<string>, target: Option<string>,
                         turnOn: Option<string>, turnOff: Option<string>, toggle: Option<string>)

  /** The context of either leaf system: its device, its last target and its alias names. */
  datatype Context = Context(device: Device, target: int32, names: Names)

  function Truth(v: int32): int32 {
    if v != 0 then 1 else 0
  }

  // ---------- Devices ----------

  function SetValue(d: Device, v: int32): (Device, Status) {
    if d.readOnly then (d, WRITE_PROTECTED) else (d.(value := v), d.error)
  }

  function GetValue(d: Device): Result {
    if d.error != OK then Err(d.error) else Value(d.value)
  }

  // ---------- The analog system ----------

  function AnalogWrite(c: Context, id: u8, v: int32): (Context, Status) {
    var r := SetValue(c.device, v);
    (c.(target := v, device := r.0), r.1)
  }

  function ReadTarget(c: Context, id: u8): Result {
    Value(c.target)
  }

  function ReadDevice(c: Context, id: u8): Result {
    GetValue(c.device)
  }

  function AnalogAlias(c: Context, id: u8, info: CmdInfo): (CmdInfo, Status) {
    if id == 0 then (CmdInfo(c.names.state, OutputCmd, 0, false, info.preset), OK)
    else if id == 1 then (CmdInfo(c.names.target, InputCmd, 0, false, info.preset), OK)
    else (info, INVALID_ARGS)
  }

  const ANALOG: Driver<Context> := Driver(
    None,
    Some(AnalogWrite),
    Some(ReadTarget),
    Some(ReadDevice),
    Some(AnalogAlias),
    Some((c: Context) => 0 as u8),
    Some((c: Context) => (if c.device.readOnly then 0 else 1) as u8),
    Some((c: Context) => 1 as u8),
    Some((c: Context) => (if c.device.readOnly then 1 else 2) as u8))

  // ---------- The digital system ----------

  function DigitalWrite(c: Context, id: u8, v: int32): (Context, Status) {
    var r := SetValue(c.device, Truth(v));
    (c.(target := Truth(v), device := r.0), r.1)
  }

  /** Toggling: the target is set even when the device then refuses the write. */
  function DigitalInvoke(c: Context, id: u8, args: seq<int32>): (Context, Status) {
    match GetValue(c.device)
    case Err(e) => (c, e)
    case Value(v) =>
      var r := SetValue(c.device, 1 - Truth(v));
      (c.(target := 1 - Truth(v), device := r.0), r.1)
  }

  function DigitalAlias(c: Context, id: u8, info: CmdInfo): (CmdInfo, Status) {
    if id == 0 then (CmdInfo(c.names.state, OutputCmd, 0, false, info.preset), OK)
    else if id == 1 then (CmdInfo(c.names.target, InputCmd, 0, false, info.preset), OK)
    else if id == 2 then (CmdInfo(c.names.turnOn, InputCmd, 0, true, 1), OK)
    else if id == 3 then (CmdInfo(c.names.turnOff, InputCmd, 0, true, 0), OK)
    else if id == 4 then (CmdInfo(c.names.toggle, FuncCmd, 0, false, info.preset), OK)
    else (info, INVALID_ARGS)
  }

  const DIGITAL: Driver<Context> := Driver(
    Some(DigitalInvoke),
    Some(DigitalWrite),
    Some(ReadTarget),
    Some(ReadDevice),
    Some(DigitalAlias),
    Some((c: Context) => (if c.device.readOnly then 0 else 1) as u8),
    Some((c: Context) => (if c.device.readOnly then 0 else 1) as u8),
    Some((c: Context) => 1 as u8),
    Some((c: Context) => (if c.device.readOnly then 1 else 5) as u8))

  ghost predicate IsModule(l: Module<Context>) {
    l.driver == ANALOG || l.driver == DIGITAL
  }

  ghost predicate Modules(ls: seq<Module<Context>>) {
    forall i :: 0 <= i < |ls| ==> IsModule(ls[i])
  }

  // ---------- What a reported success means ----------

  /** A write is reported as successful exactly on a writable device without error, and then the device has
      followed the target: input and output read the same. On a failed one only the target is sure to change. */
  lemma WriteSucceedsIffApplied(c: Context, id: u8, v: int32)
    ensures var a := AnalogWrite(c, id, v);
      && (a.1 == OK <==> !c.device.readOnly && c.device.error == OK)
      && (a.1 == OK <==> !c.device.readOnly && ReadDevice(a.0, id) == Value(v))
      && ReadTarget(a.0, id) == Value(v)
    ensures var d := DigitalWrite(c, id, v);
      && (d.1 == OK <==> !c.device.readOnly && c.device.error == OK)
      && (d.1 == OK <==> !c.device.readOnly && ReadDevice(d.0, id) == Value(Truth(v)))
      && ReadTarget(d.0, id) == Value(Truth(v))
  {}

  /** A successful toggle inverts the device and its target together, and a second one undoes it. */
  lemma ToggleTwice(c: Context, args: seq<int32>)
    requires c.device.value == Truth(c.device.value)
    ensures var once := DigitalInvoke(c, 0, args);
      && (once.1 == OK <==> !c.device.readOnly && c.device.error == OK)
      && (once.1 == OK ==>
            && ReadDevice(once.0, 0) == Value(1 - c.device.value) == ReadTarget(once.0, 0)
            && DigitalInvoke(once.0, 0, args).1 == OK
            && DigitalInvoke(once.0, 0, args).0.device == c.device)
      && (c.device.error != OK ==> once == (c, c.device.error))
  {}

  /** What a write leaves at the device, and the status it gives: 12 for a read-only device, else the device's own. */
  lemma DeviceAfterWrite(c: Context, id: u8, v: int32)
    ensures var a := AnalogWrite(c, id, v);
      && a.0 == Context(Device(if c.device.readOnly then c.device.value else v, c.device.error, c.device.readOnly), v, c.names)
      && a.1 == if c.device.readOnly then 12 else c.device.error
    ensures var d := DigitalWrite(c, id, v);
      var b := if v == 0 then 0 else 1;
      && d.0 == Context(Device(if c.device.readOnly then c.device.value else b, c.device.error, c.device.readOnly), b, c.names)
      && d.1 == if c.device.readOnly then 12 else c.device.error
  {}

  /** What a toggle leaves: nothing changes when the state cannot be read; a read-only device stays, but the
      target is inverted. */
  lemma DeviceAfterToggle(c: Context, id: u8, args: seq<int32>)
    ensures var t := DigitalInvoke(c, id, args);
      var b := if c.device.value == 0 then 1 else 0;
      if c.device.error != 0 then t == (c, c.device.error)
      else if c.device.readOnly then t == (c.(target := b), 12 as Status)
      else t == (c.(target := b, device := c.device.(value := b)), OK)
  {}

  // ---------- What is read: an input gives the target, an output the device ----------

  /** In any tree, at any time, an output read succeeds if and only if the owner's device has no error, and
      then gives the device's value, whatever the target is. */
  lemma OutputIsDevice(sys: System<Context>, m: seq<Context>, id: u8, p: nat)
    requires Fits(Leaves(sys), |m|) && Modules(Leaves(sys))
    requires Total(Leaves(sys), m, Output) <= 0xFF && Has(Leaves(sys), m, Output, id, p)
    ensures var d := m[Leaves(sys)[p].ctx].device;
      GuardedRead(sys, m, Output, id) == if d.error == OK then Value(d.value) else Err(d.error)
  {
    assert IsModule(Leaves(sys)[p]);
    ReadOutputCalls(sys, m, id, p);
  }

  /** An input read gives the target, whatever the device says. */
  lemma InputIsTarget(sys: System<Context>, m: seq<Context>, id: u8, p: nat)
    requires Fits(Leaves(sys), |m|) && Modules(Leaves(sys))
    requires Total(Leaves(sys), m, Input) <= 0xFF && Has(Leaves(sys), m, Input, id, p)
    ensures GuardedRead(sys, m, Input, id) == Value(m[Leaves(sys)[p].ctx].target)
  {
    assert IsModule(Leaves(sys)[p]);
    ReadInputCalls(sys, m, id, p);
  }

  /** Memories with equal devices read equal outputs, whatever their targets. */
  lemma OutputsFollowDevices(sys: System<Context>, m: seq<Context>, m': seq<Context>, id: u8)
    requires Fits(Leaves(sys), |m|) && |m'| == |m| && Modules(Leaves(sys))
    requires forall a :: 0 <= a < |m| ==> m'[a].device == m[a].device
    requires id < Total(Leaves(sys), m, Output) <= 0xFF
    ensures GuardedRead(sys, m', Output, id) == GuardedRead(sys, m, Output, id)
  {
    var ls := Leaves(sys);
    forall i | 0 <= i < |ls| ensures LeafCount(ls[i], m, Output) == LeafCount(ls[i], m', Output) {
      assert IsModule(ls[i]);
    }
    var p := HasOne(sys, m, Output, id);
    StartAlike(ls, m, m', Output, p);
    OutputIsDevice(sys, m, id, p);
    OutputIsDevice(sys, m', id, p);
  }

  // ---------- How many members there are ----------

  function Ones(bits: seq<bool>): nat {
    if bits == [] then 0 else (if bits[0] then 1 else 0) + Ones(bits[1..])
  }

  /** Every leaf has one output; a leaf has an input if and only if its device is writable, and a function if
      it is digital besides. */
  lemma {:induction false} MembersCounted(ls: seq<Module<Context>>, m: seq<Context>)
    requires Fits(ls, |m|) && Modules(ls)
    ensures Total(ls, m, Output) == |ls|
    ensures Total(ls, m, Input) ==
      Ones(seq(|ls|, i requires 0 <= i < |ls| && Fits(ls, |m|) => !m[ls[i].ctx].device.readOnly))
    ensures Total(ls, m, Func) ==
      Ones(seq(|ls|, i requires 0 <= i < |ls| && Fits(ls, |m|) => !m[ls[i].ctx].device.readOnly && ls[i].driver == DIGITAL))
  {
    if ls != [] {
      assert IsModule(ls[0]) && ANALOG.invoke.None? && DIGITAL.invoke.Some?;
      MembersCounted(ls[1..], m);
      var x := seq(|ls|, i requires 0 <= i < |ls| && Fits(ls, |m|) => !m[ls[i].ctx].device.readOnly);
      var f := seq(|ls|, i requires 0 <= i < |ls| && Fits(ls, |m|) =>
        !m[ls[i].ctx].device.readOnly && ls[i].driver == DIGITAL);
      var tail := ls[1..];
      assert x[1..] == seq(|tail|, i requires 0 <= i < |tail| && Fits(tail, |m|) => !m[tail[i].ctx].device.readOnly);
      assert f[1..] == seq(|tail|, i requires 0 <= i < |tail| && Fits(tail, |m|) =>
        !m[tail[i].ctx].device.readOnly && tail[i].driver == DIGITAL);
    }
  }

  /** A read-only leaf has the one alias of its output; a writable analog one has two, a digital one five. */
  lemma AliasesCounted(l: Module<Context>, m: seq<Context>)
    requires IsModule(l) && l.ctx < |m|
    ensures LeafCount(l, m, Alias) ==
      if m[l.ctx].device.readOnly then 1 else if l.driver == ANALOG then 2 else 5
  {
    assert ANALOG.invoke.None? && DIGITAL.invoke.Some?;
  }

  // ---------- Alias closure ----------

  /** Every alias a leaf reports resolves, to a member the leaf currently has. */
  lemma LeafAliasClosure(l: Module<Context>, m: seq<Context>, a: u8, info: CmdInfo)
    requires IsModule(l) && l.ctx < |m| && a < LeafCount(l, m, Alias)
    ensures var r := LeafAlias(l, m, a, info);
      r.status == OK && r.info.cmd != UnknownCmd && r.info.id < LeafCount(l, m, MemberKind(r.info.cmd))
  {}

  /** In any tree of such leaves, under any mix of read-only and writable devices, every alias id below
      the alias count resolves to a member id below the count of its kind, and dispatching that id
      reaches the leaf that owns the alias. */
  lemma AliasClosure(cs: seq<System<Context>>, m: seq<Context>, a: u8, info: CmdInfo)
    requires Fits(LeavesAll(cs), |m|) && Modules(LeavesAll(cs))
    requires forall k: Kind :: Total(LeavesAll(cs), m, k) <= 0xFF
    requires a < Count(Composite(cs), m, Alias)
    ensures var r := GuardedAlias(Composite(cs), m, a, info);
      var k := MemberKind(r.info.cmd);
      && r.status == OK && r.info.id < Count(Composite(cs), m, k)
      && Locate(Composite(cs), m, Alias, a).Some? && Locate(Composite(cs), m, k, r.info.id).Some?
      && Locate(Composite(cs), m, k, r.info.id).value.leaf == Locate(Composite(cs), m, Alias, a).value.leaf
  {
    var sys := Composite(cs);
    SmallIsModest(cs, m, Alias);
    Low8Small(Sum(cs, m, Alias));
    LocateDomain(sys, m, Alias, a);
    var s := LocateAll(cs, m, Alias, a).value;
    LeafAliasClosure(LeavesAll(cs)[s.leaf], m, s.local, info);
    AliasIsRebasedLeafAlias(cs, m, a, info, ZERO);
    AliasCoherence(cs, m, a, info);
    var r := GuardedAlias(sys, m, a, info);
    var k := MemberKind(r.info.cmd);
    SmallIsModest(cs, m, k);
    Low8Small(Sum(cs, m, k));
    LocateDomain(sys, m, k, r.info.id);
  }

  // ---------- Reading after writing ----------

  /** Memories that give every leaf the same counts route alike. */
  ghost predicate SameCounts<S>(ls: seq<Module<S>>, m: seq<S>, m': seq<S>) {
    && |m| == |m'| && Fits(ls, |m|)
    && forall i, k :: 0 <= i < |ls| ==> LeafCount(ls[i], m, k) == LeafCount(ls[i], m', k)
  }

  lemma SameCountsSplit<S>(a: seq<Module<S>>, b: seq<Module<S>>, m: seq<S>, m': seq<S>)
    requires SameCounts(a + b, m, m')
    ensures SameCounts(a, m, m') && SameCounts(b, m, m')
  {
    FitsAppend(a, b, |m|);
    forall i, k | 0 <= i < |a| ensures LeafCount(a[i], m, k) == LeafCount(a[i], m', k) {
      assert (a + b)[i] == a[i];
    }
    forall i, k | 0 <= i < |b| ensures LeafCount(b[i], m, k) == LeafCount(b[i], m', k) {
      assert (a + b)[|a| + i] == b[i];
    }
  }

  lemma {:induction false} RoutesAlike<S>(sys: System<S>, m: seq<S>, m': seq<S>, k: Kind, id: u8)
    requires Fits(Leaves(sys), |m|) && SameCounts(Leaves(sys), m, m')
    ensures Count(sys, m, k) == Count(sys, m', k) && Locate(sys, m, k, id) == Locate(sys, m', k, id)
    decreases sys, 1
  {
    match sys
    case Leaf(l) =>
      assert Leaves(sys)[0] == l;
    case Composite(cs) => RoutesAlikeAll(cs, m, m', k, id);
  }

  lemma {:induction false} RoutesAlikeAll<S>(cs: seq<System<S>>, m: seq<S>, m': seq<S>, k: Kind, id: u8)
    requires Fits(LeavesAll(cs), |m|) && SameCounts(LeavesAll(cs), m, m')
    ensures Sum(cs, m, k) == Sum(cs, m', k) && LocateAll(cs, m, k, id) == LocateAll(cs, m', k, id)
    decreases cs, 0
  {
    if cs != [] {
      FitsSplit(cs, |m|);
      SameCountsSplit(Leaves(cs[0]), LeavesAll(cs[1..]), m, m');
      RoutesAlike(cs[0], m, m', k, id);
      var count := Count(cs[0], m, k);
      var rest := if id < count then id else id - count;
      RoutesAlikeAll(cs[1..], m, m', k, rest);
      FirstChild(cs, m, k, id, rest);
      FirstChild(cs, m', k, id, rest);
    }
  }

  /** The answer of the first child, or of the rest with its leaves counted on. */
  function Pick(take: bool, first: Option<Slot>, skip: nat, rest: Option<Slot>): Option<Slot> {
    if take then first else match rest case None => None case Some(s) => Some(Slot(skip + s.leaf, s.local))
  }

  lemma FirstChild<S>(cs: seq<System<S>>, m: seq<S>, k: Kind, id: u8, rest: u8)
    requires cs != [] && Fits(LeavesAll(cs), |m|) && Fits(Leaves(cs[0]), |m|) && Fits(LeavesAll(cs[1..]), |m|)
    requires id >= Count(cs[0], m, k) ==> rest == id - Count(cs[0], m, k)
    ensures Sum(cs, m, k) == Count(cs[0], m, k) + Sum(cs[1..], m, k)
    ensures LocateAll(cs, m, k, id) ==
      Pick(id < Count(cs[0], m, k), Locate(cs[0], m, k, id), |Leaves(cs[0])|, LocateAll(cs[1..], m, k, rest))
  {}

  /** Distinct leaves have separate contexts. */
  ghost predicate SeparateContexts<S>(ls: seq<Module<S>>) {
    forall i, j :: 0 <= i < j < |ls| ==> ls[i].ctx != ls[j].ctx
  }

  lemma WriteKeepsCounts(ls: seq<Module<Context>>, m: seq<Context>, p: nat, id: u8, v: int32)
    requires Fits(ls, |m|) && Modules(ls) && SeparateContexts(ls) && p < |ls|
    ensures SameCounts(ls, m, LeafWrite(ls[p], m, id, v).mem)
  {
    var m' := LeafWrite(ls[p], m, id, v).mem;
    forall i, k | 0 <= i < |ls| ensures LeafCount(ls[i], m, k) == LeafCount(ls[i], m', k) {
      assert IsModule(ls[p]) && IsModule(ls[i]);
      assert i != p ==> ls[i].ctx != ls[p].ctx;
    }
  }

  /** What a leaf's input reads after `v` was written to it. */
  function Stored(l: Module<Context>, v: int32): int32 {
    if l.driver.invoke.None? then v else Truth(v)
  }

  /** A write that reaches a leaf makes the same input read back the value (its truth value for a digital
      leaf), whatever status the device gave; every other input, and every output of every other leaf,
      still reads as before. */
  lemma ReadAfterWrite(cs: seq<System<Context>>, m: seq<Context>, i: u8, v: int32)
    requires Fits(LeavesAll(cs), |m|) && Modules(LeavesAll(cs)) && SeparateContexts(LeavesAll(cs))
    requires forall k: Kind :: Total(LeavesAll(cs), m, k) <= 0xFF
    requires i < Total(LeavesAll(cs), m, Input)
    ensures var sys := Composite(cs);
      var m' := GuardedWrite(sys, m, i, v).mem;
      var s := Locate(sys, m, Input, i);
      && s.Some? && Fits(Leaves(sys), |m'|)
      && GuardedRead(sys, m', Input, i) == Value(Stored(Leaves(sys)[s.value.leaf], v))
      && (forall j: u8 :: j != i ==> GuardedRead(sys, m', Input, j) == GuardedRead(sys, m, Input, j))
      && (forall j: u8 :: (Locate(sys, m, Output, j).None? || Locate(sys, m, Output, j).value.leaf != s.value.leaf) ==>
            GuardedRead(sys, m', Output, j) == GuardedRead(sys, m, Output, j))
  {
    var sys, ls := Composite(cs), LeavesAll(cs);
    GuardedMeansOwner(cs, m, Input, i, v, []);
    var s := Locate(sys, m, Input, i).value;
    var l := ls[s.leaf];
    var m' := GuardedWrite(sys, m, i, v).mem;
    assert m' == LeafWrite(l, m, s.local, v).mem;
    WriteKeepsCounts(ls, m, s.leaf, s.local, v);
    RoutesAlike(sys, m, m', Input, i);
    assert IsModule(l);
    forall j: u8 | j != i ensures GuardedRead(sys, m', Input, j) == GuardedRead(sys, m, Input, j) {
      GuardedMeansOwner(cs, m, Input, j, v, []);
      OneInputPerLeaf(ls, m, i, j, s, Locate(sys, m, Input, j));
      OtherLeafReads(cs, m, m', Input, j, s.leaf);
    }
    forall j: u8 | Locate(sys, m, Output, j).None? || Locate(sys, m, Output, j).value.leaf != s.leaf
      ensures GuardedRead(sys, m', Output, j) == GuardedRead(sys, m, Output, j)
    {
      OtherLeafReads(cs, m, m', Output, j, s.leaf);
    }
  }

  /** These leaves have at most one input, so another input belongs to another leaf. */
  lemma OneInputPerLeaf(ls: seq<Module<Context>>, m: seq<Context>, i: u8, j: u8, s: Slot, t: Option<Slot>)
    requires Fits(ls, |m|) && Modules(ls) && i != j && Owns(ls, m, Input, i, s)
    requires t.Some? ==> Owns(ls, m, Input, j, t.value)
    ensures t.Some? ==> t.value.leaf != s.leaf
  {
    assert IsModule(ls[s.leaf]);
  }

  lemma OtherLeafReads(cs: seq<System<Context>>, m: seq<Context>, m': seq<Context>, k: Kind, j: u8, p: nat)
    requires Fits(LeavesAll(cs), |m|) && SameCounts(LeavesAll(cs), m, m') && SeparateContexts(LeavesAll(cs))
    requires p < |LeavesAll(cs)| && forall a :: 0 <= a < |m| && a != LeavesAll(cs)[p].ctx ==> m'[a] == m[a]
    requires Locate(Composite(cs), m, k, j).None? || Locate(Composite(cs), m, k, j).value.leaf != p
    ensures GuardedRead(Composite(cs), m', k, j) == GuardedRead(Composite(cs), m, k, j)
  {
    var ls := LeavesAll(cs);
    RoutesAlike(Composite(cs), m, m', k, j);
    var t := Locate(Composite(cs), m, k, j);
    if t.Some? {
      assert ls[t.value.leaf].ctx != ls[p].ctx;
    }
  }
}
