// Leaf-system objects under a system tree: what they do in place is what the tree does to its memory.

module DeviceTree {
  import opened Basics
  import opened Systems
  import opened Dispatch
  import opened SystemCore
  import opened Handlers
  import opened LeafModules
  import opened LeafDevices

  datatype LeafObject = AnalogLeaf(analog: AnalogSystem) | DigitalLeaf(digital: DigitalSystem) {
    function Handlers(): Driver<Context> {
      if AnalogLeaf? then ANALOG else DIGITAL
    }

    /** The system object and its device. */
    function Footprint(): set<object> {
      if AnalogLeaf? then {analog, analog.device} else {digital, digital.device}
    }

    function Cell(): DataObject {
      if AnalogLeaf? then analog.device else digital.device
    }

    function View(): Context
      reads Footprint()
    {
      if AnalogLeaf? then analog.View() else digital.View()
    }
  }

  ghost function Cells(objs: seq<LeafObject>): (cells: set<object>)
    ensures forall i {:trigger objs[i].Footprint()} :: 0 <= i < |objs| ==> objs[i].Footprint() <= cells
  {
    if objs == [] then {} else objs[0].Footprint() + Cells(objs[1..])
  }

  /** No object belongs to two leaves. */
  ghost predicate Apart(objs: seq<LeafObject>) {
    forall i, j {:trigger objs[i].Footprint(), objs[j].Footprint()} :: 0 <= i < j < |objs| ==>
      objs[i].Footprint() !! objs[j].Footprint()
  }

  /** The memory of contexts that the objects stand for. */
  ghost predicate Shows(objs: seq<LeafObject>, m: seq<Context>)
    reads Cells(objs)
  {
    |m| == |objs| && forall i :: 0 <= i < |objs| ==> objs[i].View() == m[i]
  }

  /** The object at a leaf's address is of the leaf's kind. */
  ghost predicate Stands(objs: seq<LeafObject>, l: Module<Context>) {
    l.ctx < |objs| && l.driver == objs[l.ctx].Handlers()
  }

  ghost predicate Backed(objs: seq<LeafObject>, ls: seq<Module<Context>>) {
    forall i {:trigger Stands(objs, ls[i])} :: 0 <= i < |ls| ==> Stands(objs, ls[i])
  }

  // ---------- The handlers of one leaf ----------

  lemma WritesOne(l: Module<Context>, m: seq<Context>, id: u8, v: int32)
    requires l.ctx < |m| && IsModule(l)
    ensures var c := if l.driver == ANALOG then AnalogWrite(m[l.ctx], id, v) else DigitalWrite(m[l.ctx], id, v);
      LeafWrite(l, m, id, v) == Effect(m[l.ctx := c.0], c.1)
    ensures ANALOG != DIGITAL
  {
    assert ANALOG.invoke.None? && DIGITAL.invoke.Some?;
  }

  method WriteLeaf(objs: seq<LeafObject>, l: Module<Context>, id: u8, v: int32, ghost m: seq<Context>) returns (st: Status)
    requires Apart(objs) && Shows(objs, m) && Stands(objs, l)
    modifies Cells(objs)
    ensures var e := LeafWrite(l, m, id, v); Shows(objs, e.mem) && st == e.status
  {
    var leaf := objs[l.ctx];
    WritesOne(l, m, id, v);
    assert leaf.Footprint() <= Cells(objs);
    match leaf {
      case AnalogLeaf(a) => st := a.WriteInput(id, v);
      case DigitalLeaf(d) => st := d.WriteInput(id, v);
    }
    forall i | 0 <= i < |objs| && i != l.ctx ensures objs[i].View() == m[i] {
      assert objs[i].Footprint() !! leaf.Footprint();
    }
  }

  lemma InvokesOne(l: Module<Context>, m: seq<Context>, id: u8, args: seq<int32>)
    requires l.ctx < |m| && IsModule(l)
    ensures l.driver == ANALOG ==> LeafInvoke(l, m, id, args) == Effect(m, NOT_SUPPORTED)
    ensures l.driver == DIGITAL ==>
      var c := DigitalInvoke(m[l.ctx], id, args);
      LeafInvoke(l, m, id, args) == Effect(m[l.ctx := c.0], c.1)
    ensures ANALOG != DIGITAL
  {
    assert ANALOG.invoke.None? && DIGITAL.invoke.Some?;
  }

  /** The analog system has no functions. */
  method InvokeLeaf(objs: seq<LeafObject>, l: Module<Context>, id: u8, args: seq<int32>, ghost m: seq<Context>)
      returns (st: Status)
    requires Apart(objs) && Shows(objs, m) && Stands(objs, l)
    modifies Cells(objs)
    ensures var e := LeafInvoke(l, m, id, args); Shows(objs, e.mem) && st == e.status
  {
    var leaf := objs[l.ctx];
    InvokesOne(l, m, id, args);
    assert leaf.Footprint() <= Cells(objs);
    match leaf {
      case AnalogLeaf(_) => return NOT_SUPPORTED;
      case DigitalLeaf(d) => st := d.Invoke(id, args);
    }
    forall i | 0 <= i < |objs| && i != l.ctx ensures objs[i].View() == m[i] {
      assert objs[i].Footprint() !! leaf.Footprint();
    }
  }

  method ReadLeaf(objs: seq<LeafObject>, l: Module<Context>, k: Kind, id: u8, ghost m: seq<Context>) returns (r: Result)
    requires Shows(objs, m) && Stands(objs, l)
    ensures r == LeafRead(l, m, k, id)
  {
    match objs[l.ctx] {
      case AnalogLeaf(a) =>
        if k.Input? {
          r := a.ReadInput(id);
        } else {
          r := a.ReadOutput(id);
        }
      case DigitalLeaf(d) =>
        if k.Input? {
          r := d.ReadInput(id);
        } else {
          r := d.ReadOutput(id);
        }
    }
  }

  method AliasLeaf(objs: seq<LeafObject>, l: Module<Context>, id: u8, info: CmdInfo, ghost m: seq<Context>)
      returns (r: CmdInfo, st: Status)
    requires Shows(objs, m) && Stands(objs, l)
    ensures Named(r, st) == LeafAlias(l, m, id, info)
  {
    match objs[l.ctx] {
      case AnalogLeaf(a) => r, st := a.GetAlias(id, info);
      case DigitalLeaf(d) => r, st := d.GetAlias(id, info);
    }
  }

  method CountLeaf(objs: seq<LeafObject>, l: Module<Context>, k: Kind, ghost m: seq<Context>) returns (n: u8)
    requires Shows(objs, m) && Stands(objs, l)
    ensures n == LeafCount(l, m, k)
  {
    match objs[l.ctx] {
      case AnalogLeaf(a) => n := a.MemberCount(k);
      case DigitalLeaf(d) => n := d.MemberCount(k);
    }
  }

  // ---------- A tree of them ----------

  lemma BackedSplit(objs: seq<LeafObject>, a: seq<Module<Context>>, b: seq<Module<Context>>)
    requires Backed(objs, a + b)
    ensures Backed(objs, a) && Backed(objs, b)
  {
    forall i | 0 <= i < |a| ensures Stands(objs, a[i]) {
      assert Stands(objs, (a + b)[i]);
    }
    forall i | 0 <= i < |b| ensures Stands(objs, b[i]) {
      assert Stands(objs, (a + b)[|a| + i]);
    }
  }

  lemma BackedFirst(objs: seq<LeafObject>, cs: seq<System<Context>>, i: nat)
    requires i < |cs| && Backed(objs, LeavesAll(cs[i..]))
    ensures Backed(objs, Leaves(cs[i])) && Backed(objs, LeavesAll(cs[i + 1..]))
  {
    assert cs[i..][1..] == cs[i + 1..];
    BackedSplit(objs, Leaves(cs[i]), LeavesAll(cs[i + 1..]));
  }

  lemma BackedFits(objs: seq<LeafObject>, ls: seq<Module<Context>>)
    requires Backed(objs, ls)
    ensures Fits(ls, |objs|) && Modules(ls)
  {
    forall i | 0 <= i < |ls| ensures ls[i].ctx < |objs| && IsModule(ls[i]) {
      assert Stands(objs, ls[i]);
    }
  }

  /** The count of a tree, with the wrapping sums of its composites. */
  method TreeCount(sys: System<Context>, objs: seq<LeafObject>, k: Kind, ghost m: seq<Context>) returns (n: u8)
    requires Shows(objs, m) && Backed(objs, Leaves(sys)) && Fits(Leaves(sys), |m|)
    ensures n == Count(sys, m, k)
    decreases sys
  {
    match sys {
      case Leaf(l) =>
        assert Leaves(sys)[0] == l && Stands(objs, Leaves(sys)[0]);
        n := CountLeaf(objs, l, k, m);
      case Composite(cs) =>
        n := 0;
        var i := 0;
        Low8Small(0);
        while i < |cs|
          invariant 0 <= i <= |cs| && Fits(LeavesAll(cs[i..]), |m|) && Backed(objs, LeavesAll(cs[i..]))
          invariant Low8(Sum(cs, m, k)) == Add8(n, Low8(Sum(cs[i..], m, k)))
        {
          FitsSplit(cs[i..], |m|);
          assert cs[i..][1..] == cs[i + 1..];
          BackedFirst(objs, cs, i);
          var c := TreeCount(cs[i], objs, k, m);
          SumStep(n, c, Sum(cs[i + 1..], m, k));
          n := Low8(n + c);
          i := i + 1;
        }
    }
  }

  /** Routing over the children leads to the member `local` of the leaf `l`. */
  ghost predicate Leads<S>(cs: seq<System<S>>, m: seq<S>, k: Kind, id: u8, l: Module<S>, local: u8)
    requires Fits(LeavesAll(cs), |m|)
  {
    var s := LocateAll(cs, m, k, id);
    s.Some? && l == LeavesAll(cs)[s.value.leaf] && local == s.value.local
  }

  ghost predicate LeadsFrom<S>(sys: System<S>, m: seq<S>, k: Kind, id: u8, l: Module<S>, local: u8)
    requires Fits(Leaves(sys), |m|)
  {
    var s := Locate(sys, m, k, id);
    s.Some? && l == Leaves(sys)[s.value.leaf] && local == s.value.local
  }

  lemma LeadsStep<S>(cs: seq<System<S>>, i: nat, m: seq<S>, k: Kind, id: u8, l: Module<S>, local: u8)
    requires i < |cs| && Fits(LeavesAll(cs[i..]), |m|) && Leads(cs[i..], m, k, id, l, local)
    ensures Fits(Leaves(cs[i]), |m|) && Fits(LeavesAll(cs[i + 1..]), |m|)
    ensures if id < Count(cs[i], m, k) then LeadsFrom(cs[i], m, k, id, l, local)
      else Leads(cs[i + 1..], m, k, id - Count(cs[i], m, k), l, local)
  {
    LocateStep(cs, i, m, k, id);
  }

  /** The leaf that routing by running subtraction reaches among the objects. */
  method Reach(sys: System<Context>, objs: seq<LeafObject>, k: Kind, id: u8, ghost m: seq<Context>,
               ghost goal: Module<Context>, ghost at: u8) returns (l: Module<Context>, local: u8)
    requires Shows(objs, m) && Backed(objs, Leaves(sys)) && Fits(Leaves(sys), |m|) && LeadsFrom(sys, m, k, id, goal, at)
    ensures l == goal && local == at && Stands(objs, l)
    decreases sys, 1
  {
    match sys {
      case Leaf(leaf) =>
        assert Leaves(sys)[0] == leaf && Stands(objs, Leaves(sys)[0]);
        l, local := leaf, id;
      case Composite(cs) =>
        l, local := ReachAmong(cs, objs, k, id, m, goal, at);
    }
  }

  method ReachAmong(cs: seq<System<Context>>, objs: seq<LeafObject>, k: Kind, id: u8, ghost m: seq<Context>,
                    ghost goal: Module<Context>, ghost at: u8) returns (l: Module<Context>, local: u8)
    requires Shows(objs, m) && Backed(objs, LeavesAll(cs)) && Fits(LeavesAll(cs), |m|) && Leads(cs, m, k, id, goal, at)
    ensures l == goal && local == at && Stands(objs, l)
    decreases cs, 0
  {
    var rest, i := id, 0;
    assert cs[0..] == cs;
    while i < |cs|
      invariant 0 <= i <= |cs| && Fits(LeavesAll(cs[i..]), |m|) && Backed(objs, LeavesAll(cs[i..]))
      invariant Leads(cs[i..], m, k, rest, goal, at)
    {
      LeadsStep(cs, i, m, k, rest, goal, at);
      BackedFirst(objs, cs, i);
      var count := TreeCount(cs[i], objs, k, m);
      if rest < count {
        l, local := Reach(cs[i], objs, k, rest, m, goal, at);
        return;
      }
      rest := rest - count;
      i := i + 1;
    }
    assert false;
  }

  /** The guards of a system over these objects: an analog leaf on its own has no functions; any other
      operation is passed on exactly below the count. */
  ghost predicate Refuses(sys: System<Context>, k: Kind) {
    k.Func? && sys.Leaf? && sys.leaf.driver.invoke.None?
  }

  lemma GuardsPass(sys: System<Context>, objs: seq<LeafObject>, m: seq<Context>, k: Kind, id: u8,
                   v: int32, args: seq<int32>) returns (l: Module<Context>, local: u8)
    requires |m| == |objs| && Backed(objs, Leaves(sys)) && Fits(Leaves(sys), |m|) && !k.Alias? && !Refuses(sys, k)
    ensures if id >= Count(sys, m, k) then
        && (k.Input? ==> GuardedWrite(sys, m, id, v) == Effect(m, INVALID_ARGS))
        && (k.Func? ==> GuardedInvoke(sys, m, id, args) == Effect(m, INVALID_ARGS))
        && (!k.Func? ==> GuardedRead(sys, m, k, id) == Err(INVALID_ARGS))
      else
        && l.ctx < |m| && LeadsFrom(sys, m, k, id, l, local)
        && (k.Input? ==> GuardedWrite(sys, m, id, v) == LeafWrite(l, m, local, v))
        && (k.Func? ==> GuardedInvoke(sys, m, id, args) == LeafInvoke(l, m, local, args))
        && (!k.Func? ==> GuardedRead(sys, m, k, id) == LeafRead(l, m, k, local))
  {
    LocateDomain(sys, m, k, id);
    l, local := Module(ANALOG, 0), 0;
    var s := Locate(sys, m, k, id);
    if s.Some? {
      l, local := Leaves(sys)[s.value.leaf], s.value.local;
    }
    if sys.Leaf? {
      assert Leaves(sys)[0] == sys.leaf && Stands(objs, Leaves(sys)[0]);
    }
  }

  lemma WritePasses(sys: System<Context>, objs: seq<LeafObject>, m: seq<Context>, id: u8, v: int32)
      returns (l: Module<Context>, local: u8)
    requires |m| == |objs| && Backed(objs, Leaves(sys)) && Fits(Leaves(sys), |m|)
    ensures Writes(sys, m, id, v, l, local, GuardedWrite(sys, m, id, v))
  {
    l, local := GuardsPass(sys, objs, m, Input, id, v, []);
  }

  lemma InvokePasses(sys: System<Context>, objs: seq<LeafObject>, m: seq<Context>, id: u8, args: seq<int32>)
      returns (l: Module<Context>, local: u8)
    requires |m| == |objs| && Backed(objs, Leaves(sys)) && Fits(Leaves(sys), |m|)
    ensures var e := GuardedInvoke(sys, m, id, args);
      if Refuses(sys, Func) then e == Effect(m, NOT_SUPPORTED)
      else if id >= Count(sys, m, Func) then e == Effect(m, INVALID_ARGS)
      else l.ctx < |m| && LeadsFrom(sys, m, Func, id, l, local) && e == LeafInvoke(l, m, local, args)
  {
    if Refuses(sys, Func) {
      l, local := sys.leaf, 0;
    } else {
      l, local := GuardsPass(sys, objs, m, Func, id, 0, args);
    }
  }

  method WriteTo(sys: System<Context>, objs: seq<LeafObject>, id: u8, v: int32, ghost m: seq<Context>,
                 ghost goal: Module<Context>, ghost at: u8, ghost e: Effect<Context>) returns (st: Status)
    requires Apart(objs) && Shows(objs, m) && Backed(objs, Leaves(sys)) && Fits(Leaves(sys), |m|)
    requires LeadsFrom(sys, m, Input, id, goal, at) && goal.ctx < |m| && e == LeafWrite(goal, m, at, v)
    modifies Cells(objs)
    ensures Shows(objs, e.mem) && st == e.status
  {
    var l, local := Reach(sys, objs, Input, id, m, goal, at);
    st := WriteLeaf(objs, l, local, v, m);
  }

  method InvokeOn(sys: System<Context>, objs: seq<LeafObject>, id: u8, args: seq<int32>, ghost m: seq<Context>,
                  ghost goal: Module<Context>, ghost at: u8, ghost e: Effect<Context>) returns (st: Status)
    requires Apart(objs) && Shows(objs, m) && Backed(objs, Leaves(sys)) && Fits(Leaves(sys), |m|)
    requires LeadsFrom(sys, m, Func, id, goal, at) && goal.ctx < |m| && e == LeafInvoke(goal, m, at, args)
    modifies Cells(objs)
    ensures Shows(objs, e.mem) && st == e.status
  {
    var l, local := Reach(sys, objs, Func, id, m, goal, at);
    st := InvokeLeaf(objs, l, local, args, m);
  }

  /** What a write must do, once it is known which leaf it reaches, if any. */
  ghost predicate Writes(sys: System<Context>, m: seq<Context>, id: u8, v: int32, goal: Module<Context>, at: u8,
                         e: Effect<Context>)
    requires Fits(Leaves(sys), |m|)
  {
    if id >= Count(sys, m, Input) then e == Effect(m, INVALID_ARGS)
    else goal.ctx < |m| && LeadsFrom(sys, m, Input, id, goal, at) && e == LeafWrite(goal, m, at, v)
  }

  method WriteDecided(sys: System<Context>, objs: seq<LeafObject>, id: u8, v: int32, ghost m: seq<Context>,
                      ghost goal: Module<Context>, ghost at: u8, ghost e: Effect<Context>) returns (st: Status)
    requires Apart(objs) && Shows(objs, m) && Backed(objs, Leaves(sys)) && Fits(Leaves(sys), |m|)
    requires Writes(sys, m, id, v, goal, at, e)
    modifies Cells(objs)
    ensures Shows(objs, e.mem) && st == e.status
  {
    var count := TreeCount(sys, objs, Input, m);
    if id >= count {
      return INVALID_ARGS;
    }
    st := WriteTo(sys, objs, id, v, m, goal, at, e);
  }

  /** The guarded write on the objects does to them what the guarded write does to the memory they show. */
  method TreeWrite(sys: System<Context>, objs: seq<LeafObject>, id: u8, v: int32, ghost m: seq<Context>)
      returns (st: Status)
    requires Apart(objs) && Shows(objs, m) && Backed(objs, Leaves(sys)) && Fits(Leaves(sys), |m|)
    modifies Cells(objs)
    ensures var e := GuardedWrite(sys, m, id, v); Shows(objs, e.mem) && st == e.status
  {
    ghost var goal, at := WritePasses(sys, objs, m, id, v);
    st := WriteDecided(sys, objs, id, v, m, goal, at, GuardedWrite(sys, m, id, v));
  }

  method TreeInvoke(sys: System<Context>, objs: seq<LeafObject>, id: u8, args: seq<int32>, ghost m: seq<Context>)
      returns (st: Status)
    requires Apart(objs) && Shows(objs, m) && Backed(objs, Leaves(sys)) && Fits(Leaves(sys), |m|)
    modifies Cells(objs)
    ensures var e := GuardedInvoke(sys, m, id, args); Shows(objs, e.mem) && st == e.status
  {
    ghost var goal, at := InvokePasses(sys, objs, m, id, args);
    if sys.Leaf? && sys.leaf.driver.invoke.None? {
      return NOT_SUPPORTED;
    }
    var count := TreeCount(sys, objs, Func, m);
    if id >= count {
      return INVALID_ARGS;
    }
    st := InvokeOn(sys, objs, id, args, m, goal, at, GuardedInvoke(sys, m, id, args));
  }

  method TreeRead(sys: System<Context>, objs: seq<LeafObject>, k: Kind, id: u8, ghost m: seq<Context>) returns (r: Result)
    requires (k.Input? || k.Output?) && Shows(objs, m) && Backed(objs, Leaves(sys)) && Fits(Leaves(sys), |m|)
    ensures r == GuardedRead(sys, m, k, id)
  {
    var count := TreeCount(sys, objs, k, m);
    ghost var goal, at := GuardsPass(sys, objs, m, k, id, 0, []);
    if id >= count {
      return Err(INVALID_ARGS);
    }
    var l, local := Reach(sys, objs, k, id, m, goal, at);
    r := ReadLeaf(objs, l, k, local, m);
  }

  /** Reading after writing, on the objects: the input reads back the value, whatever the device answered. */
  method WriteThenRead(cs: seq<System<Context>>, objs: seq<LeafObject>, i: u8, v: int32, ghost m: seq<Context>)
      returns (r: Result)
    requires Apart(objs) && Shows(objs, m) && Backed(objs, LeavesAll(cs)) && Fits(LeavesAll(cs), |m|)
    requires SeparateContexts(LeavesAll(cs)) && forall k: Kind :: Total(LeavesAll(cs), m, k) <= 0xFF
    requires i < Total(LeavesAll(cs), m, Input)
    modifies Cells(objs)
    ensures var s := Locate(Composite(cs), m, Input, i);
      s.Some? && r == Value(Stored(LeavesAll(cs)[s.value.leaf], v))
  {
    BackedFits(objs, LeavesAll(cs));
    ReadAfterWrite(cs, m, i, v);
    var _ := TreeWrite(Composite(cs), objs, i, v, m);
    r := TreeRead(Composite(cs), objs, Input, i, GuardedWrite(Composite(cs), m, i, v).mem);
  }

  // ---------- A device that changes on its own ----------

  /** The device of one leaf is set outside its leaf system: only that device changes, no target does. */
  method SetDevice(objs: seq<LeafObject>, p: nat, v: int32, ghost m: seq<Context>) returns (st: Status)
    requires Apart(objs) && Shows(objs, m) && p < |objs|
    modifies Cells(objs)
    ensures st == OK <==> !m[p].device.readOnly && m[p].device.error == OK
    ensures st == OK ==> Shows(objs, m[p := m[p].(device := m[p].device.(value := v))])
  {
    var leaf := objs[p];
    assert leaf.Footprint() <= Cells(objs);
    st := leaf.Cell().Set(v);
    forall i | 0 <= i < |objs| && i != p ensures objs[i].View() == m[i] {
      assert objs[i].Footprint() !! leaf.Footprint();
    }
  }

  /** The memory after a device has taken the value `v`. */
  ghost function Sensed(m: seq<Context>, p: nat, v: int32): seq<Context>
    requires p < |m|
  {
    m[p := m[p].(device := m[p].device.(value := v))]
  }

  lemma SensedCounts(ls: seq<Module<Context>>, m: seq<Context>, p: nat, v: int32, k: Kind)
    requires Fits(ls, |m|) && Modules(ls) && p < |m|
    ensures forall a :: 0 <= a < |ls| ==> LeafCount(ls[a], m, k) == LeafCount(ls[a], Sensed(m, p, v), k)
  {
    forall a | 0 <= a < |ls| ensures LeafCount(ls[a], m, k) == LeafCount(ls[a], Sensed(m, p, v), k) {
      assert IsModule(ls[a]);
    }
  }

  lemma SensedReads(sys: System<Context>, m: seq<Context>, j: u8, q: nat, i: u8, v: int32)
    requires Fits(Leaves(sys), |m|) && Modules(Leaves(sys))
    requires Total(Leaves(sys), m, Output) <= 0xFF && Has(Leaves(sys), m, Output, j, q)
    requires i < Total(Leaves(sys), m, Input) <= 0xFF && m[Leaves(sys)[q].ctx].device.error == OK
    ensures var m' := Sensed(m, Leaves(sys)[q].ctx, v);
      && GuardedRead(sys, m', Output, j) == Value(v)
      && GuardedRead(sys, m', Input, i) == GuardedRead(sys, m, Input, i)
  {
    var ls, m' := Leaves(sys), Sensed(m, Leaves(sys)[q].ctx, v);
    SensedCounts(ls, m, ls[q].ctx, v, Output);
    SensedCounts(ls, m, ls[q].ctx, v, Input);
    StartAlike(ls, m, m', Output, q);
    OutputIsDevice(sys, m', j, q);
    var p := HasOne(sys, m, Input, i);
    StartAlike(ls, m, m', Input, p);
    InputIsTarget(sys, m, i, p);
    InputIsTarget(sys, m', i, p);
  }

  method ReadBoth(sys: System<Context>, objs: seq<LeafObject>, j: u8, i: u8, ghost m: seq<Context>)
      returns (y: Result, x: Result)
    requires Shows(objs, m) && Backed(objs, Leaves(sys)) && Fits(Leaves(sys), |m|)
    ensures y == GuardedRead(sys, m, Output, j) && x == GuardedRead(sys, m, Input, i)
  {
    y := TreeRead(sys, objs, Output, j, m);
    x := TreeRead(sys, objs, Input, i, m);
  }

  /** A device that was set outside its leaf system shows at its output, and at no input. */
  method SetThenRead(sys: System<Context>, objs: seq<LeafObject>, j: u8, ghost q: nat, p: nat, v: int32, i: u8,
                     ghost m: seq<Context>) returns (st: Status, y: Result, x: Result)
    requires Apart(objs) && Shows(objs, m) && Backed(objs, Leaves(sys)) && Fits(Leaves(sys), |m|)
    requires Total(Leaves(sys), m, Output) <= 0xFF && Has(Leaves(sys), m, Output, j, q) && Leaves(sys)[q].ctx == p
    requires i < Total(Leaves(sys), m, Input) <= 0xFF
    modifies Cells(objs)
    ensures st == OK <==> !m[p].device.readOnly && m[p].device.error == OK
    ensures st == OK ==> y == Value(v) && x == GuardedRead(sys, m, Input, i)
  {
    BackedFits(objs, Leaves(sys));
    st := SetDevice(objs, p, v, m);
    y, x := Err(st), Err(st);
    if st == OK {
      SensedReads(sys, m, j, q, i, v);
      y, x := ReadBoth(sys, objs, j, i, Sensed(m, p, v));
    }
  }
}
