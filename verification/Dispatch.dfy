// The operations of a system tree: what each does to the memory, alias rebasing, and the
// loops over the children that implement them.

module Dispatch {
  import opened Basics
  import opened Systems

  // ---------- One leaf ----------

  /** The effect of an operation: the new memory and the status. */
  datatype Effect<S> = Effect(mem: seq<S>, status: Status)

  datatype Named = Named(info: CmdInfo, status: Status)

  function LeafWrite<S>(l: Module<S>, m: seq<S>, id: u8, v: int32): Effect<S>
    requires l.ctx < |m|
  {
    match l.driver.writeInput
    case None => Effect(m, NOT_SUPPORTED)
    case Some(f) =>
      var r := f(m[l.ctx], id, v);
      Effect(m[l.ctx := r.0], r.1)
  }

  function LeafInvoke<S>(l: Module<S>, m: seq<S>, id: u8, args: seq<int32>): Effect<S>
    requires l.ctx < |m|
  {
    match l.driver.invoke
    case None => Effect(m, NOT_SUPPORTED)
    case Some(f) =>
      var r := f(m[l.ctx], id, args);
      Effect(m[l.ctx := r.0], r.1)
  }

  /** Reading an input or an output. */
  function LeafRead<S>(l: Module<S>, m: seq<S>, k: Kind, id: u8): Result
    requires l.ctx < |m|
  {
    match if k.Input? then l.driver.readInput else l.driver.readOutput
    case None => Err(NOT_SUPPORTED)
    case Some(f) => f(m[l.ctx], id)
  }

  function LeafAlias<S>(l: Module<S>, m: seq<S>, id: u8, info: CmdInfo): Named
    requires l.ctx < |m|
  {
    match l.driver.getAlias
    case None => Named(info, NOT_SUPPORTED)
    case Some(f) =>
      var r := f(m[l.ctx], id, info);
      Named(r.0, r.1)
  }

  // ---------- A tree: the operation of the leaf that routing reaches ----------

  function Write<S>(sys: System<S>, m: seq<S>, id: u8, v: int32): (e: Effect<S>)
    requires Fits(Leaves(sys), |m|)
    ensures |e.mem| == |m|
  {
    match Locate(sys, m, Input, id)
    case None => Effect(m, INVALID_ARGS)
    case Some(s) => LeafWrite(Leaves(sys)[s.leaf], m, s.local, v)
  }

  function Invoke<S>(sys: System<S>, m: seq<S>, id: u8, args: seq<int32>): (e: Effect<S>)
    requires Fits(Leaves(sys), |m|)
    ensures |e.mem| == |m|
  {
    match Locate(sys, m, Func, id)
    case None => Effect(m, INVALID_ARGS)
    case Some(s) => LeafInvoke(Leaves(sys)[s.leaf], m, s.local, args)
  }

  function Read<S>(sys: System<S>, m: seq<S>, k: Kind, id: u8): Result
    requires Fits(Leaves(sys), |m|)
  {
    match Locate(sys, m, k, id)
    case None => Err(INVALID_ARGS)
    case Some(s) => LeafRead(Leaves(sys)[s.leaf], m, k, s.local)
  }

  // ---------- Aliases: ids rebased by the members of the children before ----------

  datatype Offsets = Offsets(f: u8, x: u8, y: u8)

  const ZERO := Offsets(0, 0, 0)

  function Plus(a: Offsets, b: Offsets): Offsets {
    Offsets(Add8(a.f, b.f), Add8(a.x, b.x), Add8(a.y, b.y))
  }

  function Rebase(info: CmdInfo, o: Offsets): CmdInfo {
    var off := match info.cmd case FuncCmd => o.f case InputCmd => o.x case _ => o.y;
    info.(id := Add8(info.id, off))
  }

  function Counts<S>(sys: System<S>, m: seq<S>): Offsets
    requires Fits(Leaves(sys), |m|)
  {
    Offsets(Count(sys, m, Func), Count(sys, m, Input), Count(sys, m, Output))
  }

  /** The alias loop over the children, from the running offsets `o` on. */
  function AliasAll<S>(cs: seq<System<S>>, m: seq<S>, id: u8, info: CmdInfo, o: Offsets): Named
    requires Fits(LeavesAll(cs), |m|)
    decreases cs
  {
    if cs == [] then Named(info, INVALID_ARGS)
    else
      FitsSplit(cs, |m|);
      var count := Count(cs[0], m, Alias);
      if id < count then
        match cs[0]
        case Leaf(l) =>
          assert Leaves(cs[0])[0] == l;
          var r := LeafAlias(l, m, id, info);
          if l.driver.getAlias.None? then r else Named(Rebase(r.info, o), r.status)
        case Composite(gs) =>
          var r := AliasAll(gs, m, id, info, ZERO);
          Named(Rebase(r.info, o), r.status)
      else AliasAll(cs[1..], m, id - count, info, Plus(o, Counts(cs[0], m)))
  }

  function GetAlias<S>(sys: System<S>, m: seq<S>, id: u8, info: CmdInfo): Named
    requires Fits(Leaves(sys), |m|)
  {
    match sys
    case Leaf(l) =>
      assert Leaves(sys)[0] == l;
      if id < LeafCount(l, m, Alias) then LeafAlias(l, m, id, info) else Named(info, INVALID_ARGS)
    case Composite(cs) => AliasAll(cs, m, id, info, ZERO)
  }

  /** The members before leaf `p`, modulo 256. */
  function StartOffsets<S>(ls: seq<Module<S>>, m: seq<S>, p: nat): Offsets
    requires Fits(ls, |m|) && p <= |ls|
  {
    Offsets(Low8(Start(ls, m, Func, p)), Low8(Start(ls, m, Input, p)), Low8(Start(ls, m, Output, p)))
  }

  lemma RebaseTwice(info: CmdInfo, a: Offsets, b: Offsets)
    ensures Rebase(Rebase(info, a), b) == Rebase(info, Plus(b, a))
    ensures Plus(ZERO, a) == a && Rebase(info, ZERO) == info
  {}

  lemma PlusAssoc(a: Offsets, b: Offsets, c: Offsets)
    ensures Plus(Plus(a, b), c) == Plus(a, Plus(b, c))
  {}

  lemma StartOffsetsLeft<S>(a: seq<Module<S>>, b: seq<Module<S>>, m: seq<S>, p: nat)
    requires Fits(a, |m|) && Fits(b, |m|) && Fits(a + b, |m|) && p <= |a|
    ensures StartOffsets(a + b, m, p) == StartOffsets(a, m, p)
  {
    StartAppend(a, b, m, Func, p);
    StartAppend(a, b, m, Input, p);
    StartAppend(a, b, m, Output, p);
  }

  lemma StartOffsetsRight<S>(sys: System<S>, b: seq<Module<S>>, m: seq<S>, q: nat)
    requires Fits(Leaves(sys), |m|) && Fits(b, |m|) && Fits(Leaves(sys) + b, |m|) && q <= |b|
    ensures StartOffsets(Leaves(sys) + b, m, |Leaves(sys)| + q) == Plus(Counts(sys, m), StartOffsets(b, m, q))
  {
    StartLow8(sys, b, m, Func, q);
    StartLow8(sys, b, m, Input, q);
    StartLow8(sys, b, m, Output, q);
  }

  lemma StartLow8<S>(sys: System<S>, b: seq<Module<S>>, m: seq<S>, k: Kind, q: nat)
    requires Fits(Leaves(sys), |m|) && Fits(b, |m|) && Fits(Leaves(sys) + b, |m|) && q <= |b|
    ensures Low8(Start(Leaves(sys) + b, m, k, |Leaves(sys)| + q)) == Add8(Count(sys, m, k), Low8(Start(b, m, k, q)))
  {
    var a := Leaves(sys);
    StartAppend(a, b, m, k, |a| + q);
    StartAtEnd(a, m, k);
    CountWraps(sys, m, k);
    Low8Add(Total(a, m, k), Start(b, m, k, q));
  }

  /** The alias of a tree is the alias of the leaf reached, rebased by all members before that leaf,
      however deep the nesting; the status is the leaf's own. */
  ghost predicate Rebased<S>(ls: seq<Module<S>>, m: seq<S>, s: Option<Slot>, info: CmdInfo, o: Offsets, r: Named)
    requires Fits(ls, |m|) && (s.Some? ==> s.value.leaf < |ls|)
  {
    match s
    case None => r == Named(info, INVALID_ARGS)
    case Some(s) =>
      var leaf := LeafAlias(ls[s.leaf], m, s.local, info);
      && r.status == leaf.status
      && (ls[s.leaf].driver.getAlias.Some? ==> r.info == Rebase(leaf.info, Plus(o, StartOffsets(ls, m, s.leaf))))
  }

  lemma {:induction false} AliasIsRebasedLeafAlias<S>(cs: seq<System<S>>, m: seq<S>, id: u8, info: CmdInfo, o: Offsets)
    requires Fits(LeavesAll(cs), |m|)
    ensures Rebased(LeavesAll(cs), m, LocateAll(cs, m, Alias, id), info, o, AliasAll(cs, m, id, info, o))
    decreases cs
  {
    if cs == [] {
      return;
    }
    FitsSplit(cs, |m|);
    var count := Count(cs[0], m, Alias);
    if id < count {
      LocateDomain(cs[0], m, Alias, id);
      if cs[0].Composite? {
        AliasIsRebasedLeafAlias(cs[0].children, m, id, info, ZERO);
        AliasInComposite(cs, m, id, info, o);
      } else {
        AliasInLeaf(cs, m, id, info, o);
      }
    } else {
      AliasIsRebasedLeafAlias(cs[1..], m, id - count, info, Plus(o, Counts(cs[0], m)));
      AliasInRest(cs, m, id, info, o);
    }
  }

  lemma AliasInLeaf<S>(cs: seq<System<S>>, m: seq<S>, id: u8, info: CmdInfo, o: Offsets)
    requires cs != [] && Fits(LeavesAll(cs), |m|) && Fits(Leaves(cs[0]), |m|)
    requires id < Count(cs[0], m, Alias) && cs[0].Leaf?
    ensures Rebased(LeavesAll(cs), m, LocateAll(cs, m, Alias, id), info, o, AliasAll(cs, m, id, info, o))
  {
    FitsSplit(cs, |m|);
    assert LocateAll(cs, m, Alias, id) == Some(Slot(0, id));
    assert LeavesAll(cs)[0] == cs[0].leaf;
    assert StartOffsets(LeavesAll(cs), m, 0) == ZERO;
    RebaseTwice(info, ZERO, o);
  }

  lemma AliasInComposite<S>(cs: seq<System<S>>, m: seq<S>, id: u8, info: CmdInfo, o: Offsets)
    requires cs != [] && Fits(LeavesAll(cs), |m|) && Fits(Leaves(cs[0]), |m|) && Fits(LeavesAll(cs[1..]), |m|)
    requires id < Count(cs[0], m, Alias) && cs[0].Composite?
    requires LocateAll(cs[0].children, m, Alias, id).Some?
    requires var gs := cs[0].children;
      Rebased(LeavesAll(gs), m, LocateAll(gs, m, Alias, id), info, ZERO, AliasAll(gs, m, id, info, ZERO))
    ensures Rebased(LeavesAll(cs), m, LocateAll(cs, m, Alias, id), info, o, AliasAll(cs, m, id, info, o))
  {
    var a, b := Leaves(cs[0]), LeavesAll(cs[1..]);
    var s := LocateAll(cs[0].children, m, Alias, id).value;
    StartOffsetsLeft(a, b, m, s.leaf);
    assert LocateAll(cs, m, Alias, id) == Some(s);
    assert LeavesAll(cs)[s.leaf] == a[s.leaf];
    RebaseTwice(LeafAlias(a[s.leaf], m, s.local, info).info, StartOffsets(a, m, s.leaf), o);
  }

  lemma AliasInRest<S>(cs: seq<System<S>>, m: seq<S>, id: u8, info: CmdInfo, o: Offsets)
    requires cs != [] && Fits(LeavesAll(cs), |m|) && Fits(Leaves(cs[0]), |m|) && Fits(LeavesAll(cs[1..]), |m|)
    requires id >= Count(cs[0], m, Alias)
    requires var o', id' := Plus(o, Counts(cs[0], m)), id - Count(cs[0], m, Alias);
      Rebased(LeavesAll(cs[1..]), m, LocateAll(cs[1..], m, Alias, id'), info, o', AliasAll(cs[1..], m, id', info, o'))
    ensures Rebased(LeavesAll(cs), m, LocateAll(cs, m, Alias, id), info, o, AliasAll(cs, m, id, info, o))
  {
    var a, b := Leaves(cs[0]), LeavesAll(cs[1..]);
    var s := LocateAll(cs[1..], m, Alias, id - Count(cs[0], m, Alias));
    if s.Some? {
      StartOffsetsRight(cs[0], b, m, s.value.leaf);
      assert LeavesAll(cs)[|a| + s.value.leaf] == b[s.value.leaf];
      PlusAssoc(o, Counts(cs[0], m), StartOffsets(b, m, s.value.leaf));
    }
  }

  // ---------- Alias coherence and flattening ----------

  function MemberKind(cmd: CmdType): Kind {
    match cmd case FuncCmd => Func case InputCmd => Input case _ => Output
  }

  /** Alias coherence: dispatching the id an alias resolves to reaches the leaf that owns the alias,
      at the member it names, if and only if that leaf has the member. */
  lemma AliasCoherence<S>(cs: seq<System<S>>, m: seq<S>, a: u8, info: CmdInfo)
    requires Fits(LeavesAll(cs), |m|) && LocateAll(cs, m, Alias, a).Some?
    requires var s := LocateAll(cs, m, Alias, a).value;
      var l := LeavesAll(cs)[s.leaf];
      l.driver.getAlias.Some? && Total(LeavesAll(cs), m, MemberKind(LeafAlias(l, m, s.local, info).info.cmd)) <= 0xFF
    ensures var s := LocateAll(cs, m, Alias, a).value;
      var l := LeavesAll(cs)[s.leaf];
      var named := LeafAlias(l, m, s.local, info).info;
      var k := MemberKind(named.cmd);
      var id := AliasAll(cs, m, a, info, ZERO).info.id;
      LocateAll(cs, m, k, id) == Some(Slot(s.leaf, named.id)) <==> named.id < LeafCount(l, m, k)
  {
    var ls := LeavesAll(cs);
    var s := LocateAll(cs, m, Alias, a).value;
    var named := LeafAlias(ls[s.leaf], m, s.local, info).info;
    var k := MemberKind(named.cmd);
    AliasIsRebasedLeafAlias(cs, m, a, info, ZERO);
    RebaseTwice(named, StartOffsets(ls, m, s.leaf), ZERO);
    var start := Start(ls, m, k, s.leaf);
    StartStep(ls, m, k, s.leaf);
    StartMonotone(ls, m, k, s.leaf + 1, |ls|);
    StartAtEnd(ls, m, k);
    Low8Small(start);
    var id := AliasAll(cs, m, a, info, ZERO).info.id;
    assert id == Add8(named.id, start);
    SmallIsModest(cs, m, k);
    assert LeavesAll(cs) == Leaves(Composite(cs)) && Modest(Composite(cs), m, k);
    RoutingIsPrefixSumLookup(Composite(cs), m, k, id, Slot(s.leaf, named.id));
  }

  /** A tree and the flat composite over its leaves do the same for every operation: same status and
      same memory for writes and calls, same result for reads, same status for aliases, and the same
      alias wherever the leaf has an alias handler. */
  lemma Flattening<S>(cs: seq<System<S>>, m: seq<S>, id: u8, v: int32, args: seq<int32>, info: CmdInfo)
    requires Fits(LeavesAll(cs), |m|) && forall k: Kind :: ModestAll(cs, m, k)
    ensures var tree := Composite(cs);
      var flat := Flatten(tree);
      && Leaves(flat) == Leaves(tree)
      && Write(flat, m, id, v) == Write(tree, m, id, v)
      && Invoke(flat, m, id, args) == Invoke(tree, m, id, args)
      && Read(flat, m, Input, id) == Read(tree, m, Input, id)
      && Read(flat, m, Output, id) == Read(tree, m, Output, id)
      && GetAlias(flat, m, id, info).status == GetAlias(tree, m, id, info).status
      && (var s := Locate(tree, m, Alias, id);
          s.None? || Leaves(tree)[s.value.leaf].driver.getAlias.Some? ==>
            GetAlias(flat, m, id, info) == GetAlias(tree, m, id, info))
  {
    var tree := Composite(cs);
    assert Modest(tree, m, Input) && Modest(tree, m, Output) && Modest(tree, m, Func) && Modest(tree, m, Alias);
    FlatteningKeepsRouting(tree, m, Input, id);
    FlatteningKeepsRouting(tree, m, Output, id);
    FlatteningKeepsRouting(tree, m, Func, id);
    FlatteningKeepsRouting(tree, m, Alias, id);
    AliasIsRebasedLeafAlias(cs, m, id, info, ZERO);
    AliasIsRebasedLeafAlias(Flatten(tree).children, m, id, info, ZERO);
  }
}
