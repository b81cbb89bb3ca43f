// What a driver's handlers are asked: the member's own number, the value, the arguments; and what that
// means on trees of register banks.

module Handlers {
  import opened Basics
  import opened Systems
  import opened Dispatch
  import opened SystemCore

  // ---------- Any driver ----------

  /** The leaf `p` has the member `id` of the tree, as its own member `id - Start(p)`. */
  ghost predicate Has<S>(ls: seq<Module<S>>, m: seq<S>, k: Kind, id: u8, p: nat)
    requires Fits(ls, |m|)
  {
    p < |ls| && Start(ls, m, k, p) <= id < Start(ls, m, k, p) + LeafCount(ls[p], m, k)
  }

  /** The number a member has at its own leaf. */
  ghost function Own<S>(ls: seq<Module<S>>, m: seq<S>, k: Kind, id: u8, p: nat): u8
    requires Fits(ls, |m|) && Has(ls, m, k, id, p)
  {
    id - Start(ls, m, k, p)
  }

  lemma HasIsReached<S>(sys: System<S>, m: seq<S>, k: Kind, id: u8, p: nat)
    requires Fits(Leaves(sys), |m|) && Total(Leaves(sys), m, k) <= 0xFF && Has(Leaves(sys), m, k, id, p)
    ensures Locate(sys, m, k, id) == Some(Slot(p, Own(Leaves(sys), m, k, id, p))) && id < Count(sys, m, k)
  {
    var ls := Leaves(sys);
    var s := Slot(p, Own(ls, m, k, id, p));
    CountExact(sys, m, k);
    RoutingIsPrefixSumLookup(sys, m, k, id, s);
    assert Owns(ls, m, k, id, s);
  }

  /** Every id below the total has such a leaf. */
  lemma HasOne<S>(sys: System<S>, m: seq<S>, k: Kind, id: u8) returns (p: nat)
    requires Fits(Leaves(sys), |m|) && id < Total(Leaves(sys), m, k) <= 0xFF
    ensures Has(Leaves(sys), m, k, id, p)
  {
    CountExact(sys, m, k);
    LocateFindsOwner(sys, m, k, id);
    p := Locate(sys, m, k, id).value.leaf;
  }

  /** A guarded write calls the owner's handler with the owner's context, the member's own number and the
      value, and stores the context it returns; all other contexts stay. */
  lemma WriteCalls<S>(sys: System<S>, m: seq<S>, id: u8, v: int32, p: nat)
    requires Fits(Leaves(sys), |m|) && Total(Leaves(sys), m, Input) <= 0xFF && Has(Leaves(sys), m, Input, id, p)
    ensures var l := Leaves(sys)[p];
      var e := GuardedWrite(sys, m, id, v);
      if l.driver.writeInput.None? then e.mem == m && e.status == NOT_SUPPORTED
      else
        var r := l.driver.writeInput.value(m[l.ctx], Own(Leaves(sys), m, Input, id, p), v);
        e.mem == m[l.ctx := r.0] && e.status == r.1
  {
    HasIsReached(sys, m, Input, id, p);
    if sys.Leaf? {
      assert Leaves(sys)[0] == sys.leaf;
    }
  }

  lemma InvokeCalls<S>(sys: System<S>, m: seq<S>, id: u8, args: seq<int32>, p: nat)
    requires Fits(Leaves(sys), |m|) && Total(Leaves(sys), m, Func) <= 0xFF && Has(Leaves(sys), m, Func, id, p)
    ensures var l := Leaves(sys)[p];
      var e := GuardedInvoke(sys, m, id, args);
      if l.driver.invoke.None? then e.mem == m && e.status == NOT_SUPPORTED
      else
        var r := l.driver.invoke.value(m[l.ctx], Own(Leaves(sys), m, Func, id, p), args);
        e.mem == m[l.ctx := r.0] && e.status == r.1
  {
    HasIsReached(sys, m, Func, id, p);
    if sys.Leaf? {
      assert Leaves(sys)[0] == sys.leaf;
    }
  }

  lemma ReadInputCalls<S>(sys: System<S>, m: seq<S>, id: u8, p: nat)
    requires Fits(Leaves(sys), |m|) && Total(Leaves(sys), m, Input) <= 0xFF && Has(Leaves(sys), m, Input, id, p)
    ensures var l := Leaves(sys)[p];
      GuardedRead(sys, m, Input, id) ==
        if l.driver.readInput.None? then Err(NOT_SUPPORTED)
        else l.driver.readInput.value(m[l.ctx], Own(Leaves(sys), m, Input, id, p))
  {
    HasIsReached(sys, m, Input, id, p);
    if sys.Leaf? {
      assert Leaves(sys)[0] == sys.leaf;
    }
  }

  lemma ReadOutputCalls<S>(sys: System<S>, m: seq<S>, id: u8, p: nat)
    requires Fits(Leaves(sys), |m|) && Total(Leaves(sys), m, Output) <= 0xFF && Has(Leaves(sys), m, Output, id, p)
    ensures var l := Leaves(sys)[p];
      GuardedRead(sys, m, Output, id) ==
        if l.driver.readOutput.None? then Err(NOT_SUPPORTED)
        else l.driver.readOutput.value(m[l.ctx], Own(Leaves(sys), m, Output, id, p))
  {
    HasIsReached(sys, m, Output, id, p);
    if sys.Leaf? {
      assert Leaves(sys)[0] == sys.leaf;
    }
  }

  /** Rebasing adds the members of that kind before the leaf, modulo 256, and keeps all else. */
  lemma RebaseAdds<S>(ls: seq<Module<S>>, m: seq<S>, p: nat, info: CmdInfo)
    requires Fits(ls, |m|) && p <= |ls|
    ensures Rebase(info, Plus(ZERO, StartOffsets(ls, m, p)))
      == info.(id := (info.id + Start(ls, m, MemberKind(info.cmd), p)) % 0x100)
  {
    RebaseTwice(info, StartOffsets(ls, m, p), ZERO);
    Low8Add(info.id, Start(ls, m, MemberKind(info.cmd), p));
    Low8Small(info.id);
  }

  /** What a look-up that asks the handler of leaf `p` for its alias `own` must return. */
  ghost predicate Asked<S>(ls: seq<Module<S>>, m: seq<S>, p: nat, own: u8, info: CmdInfo, a: Named)
    requires Fits(ls, |m|) && p < |ls| && ls[p].driver.getAlias.Some?
  {
    var r := ls[p].driver.getAlias.value(m[ls[p].ctx], own, info);
    && a.status == r.1
    && a.info == r.0.(id := (r.0.id + Start(ls, m, MemberKind(r.0.cmd), p)) % 0x100)
  }

  lemma CompositeAsks<S>(cs: seq<System<S>>, m: seq<S>, id: u8, info: CmdInfo, p: nat, own: u8)
    requires Fits(LeavesAll(cs), |m|) && p < |LeavesAll(cs)| && LeavesAll(cs)[p].driver.getAlias.Some?
    requires LocateAll(cs, m, Alias, id) == Some(Slot(p, own))
    ensures Asked(LeavesAll(cs), m, p, own, info, AliasAll(cs, m, id, info, ZERO))
  {
    AliasIsRebasedLeafAlias(cs, m, id, info, ZERO);
    RebaseAdds(LeavesAll(cs), m, p, LeafAlias(LeavesAll(cs)[p], m, own, info).info);
  }

  /** A guarded alias look-up calls the owner's handler with the alias's own number; only the member id of
      what it returns changes, by the members of that kind before the owner, modulo 256. */
  lemma AliasCalls<S>(sys: System<S>, m: seq<S>, id: u8, info: CmdInfo, p: nat)
    requires Fits(Leaves(sys), |m|) && Total(Leaves(sys), m, Alias) <= 0xFF && Has(Leaves(sys), m, Alias, id, p)
    requires Leaves(sys)[p].driver.getAlias.Some?
    ensures Asked(Leaves(sys), m, p, Own(Leaves(sys), m, Alias, id, p), info, GuardedAlias(sys, m, id, info))
  {
    HasIsReached(sys, m, Alias, id, p);
    match sys
    case Leaf(l) =>
      assert Leaves(sys)[0] == l;
    case Composite(cs) => CompositeAsks(cs, m, id, info, p, Own(Leaves(sys), m, Alias, id, p));
  }

  /** An id that no leaf has reaches no handler. */
  lemma NobodyCalled<S>(sys: System<S>, m: seq<S>, k: Kind, id: u8, v: int32, args: seq<int32>, info: CmdInfo)
    requires Fits(Leaves(sys), |m|) && Total(Leaves(sys), m, k) <= 0xFF && id >= Total(Leaves(sys), m, k)
    requires sys.Leaf? ==> Counter(sys.leaf.driver, k).Some?
    requires sys.Leaf? ==> match k
      case Input => sys.leaf.driver.writeInput.Some? && sys.leaf.driver.readInput.Some?
      case Output => sys.leaf.driver.readOutput.Some?
      case Func => sys.leaf.driver.invoke.Some?
      case Alias => sys.leaf.driver.getAlias.Some?
    ensures match k
      case Input =>
        GuardedWrite(sys, m, id, v) == Effect(m, INVALID_ARGS) && GuardedRead(sys, m, Input, id) == Err(INVALID_ARGS)
      case Output => GuardedRead(sys, m, Output, id) == Err(INVALID_ARGS)
      case Func => GuardedInvoke(sys, m, id, args) == Effect(m, INVALID_ARGS)
      case Alias => GuardedAlias(sys, m, id, info) == Named(info, INVALID_ARGS)
  {
    CountExact(sys, m, k);
  }

  /** A plain driver without a handler or without its counter supports no operation of that kind. */
  lemma Unsupported<S>(l: Module<S>, m: seq<S>, id: u8, v: int32, args: seq<int32>, info: CmdInfo)
    requires l.ctx < |m|
    ensures Fits(Leaves(Leaf(l)), |m|)
    ensures l.driver.writeInput.None? || l.driver.inputCount.None? ==>
      GuardedWrite(Leaf(l), m, id, v) == Effect(m, NOT_SUPPORTED)
    ensures l.driver.readInput.None? || l.driver.inputCount.None? ==> GuardedRead(Leaf(l), m, Input, id) == Err(NOT_SUPPORTED)
    ensures l.driver.readOutput.None? || l.driver.outputCount.None? ==> GuardedRead(Leaf(l), m, Output, id) == Err(NOT_SUPPORTED)
    ensures l.driver.invoke.None? || l.driver.functionCount.None? ==>
      GuardedInvoke(Leaf(l), m, id, args) == Effect(m, NOT_SUPPORTED)
    ensures l.driver.getAlias.None? || l.driver.aliasCount.None? ==>
      GuardedAlias(Leaf(l), m, id, info) == Named(info, NOT_SUPPORTED)
  {}

  // ---------- Register banks: handlers that use every argument ----------

  datatype Bank = Bank(inputs: seq<int32>, outputs: seq<int32>, functions: u8, calls: seq<Request>, aliases: seq<CmdInfo>)

  datatype Request = Request(id: u8, args: seq<int32>)

  type Small = b: Bank | |b.inputs| <= 0xFF && |b.outputs| <= 0xFF && |b.aliases| <= 0xFF
    witness Bank([], [], 0, [], [])

  function Called(b: Small, id: u8, args: seq<int32>): (Small, Status) {
    (b.(calls := b.calls + [Request(id, args)]), OK)
  }

  function Written(b: Small, id: u8, v: int32): (Small, Status) {
    if id < |b.inputs| then (b.(inputs := b.inputs[id := v]), OK) else (b, INVALID_ARGS)
  }

  function Register(registers: seq<int32>, id: u8): Result {
    if id < |registers| then Value(registers[id]) else Err(INVALID_ARGS)
  }

  function Entry(b: Small, id: u8, info: CmdInfo): (CmdInfo, Status) {
    if id < |b.aliases| then (b.aliases[id], OK) else (info, INVALID_ARGS)
  }

  const BANK: Driver<Small> := Driver(
    Some(Called),
    Some(Written),
    Some((b: Small, id: u8) => Register(b.inputs, id)),
    Some((b: Small, id: u8) => Register(b.outputs, id)),
    Some(Entry),
    Some((b: Small) => b.functions),
    Some((b: Small) => |b.inputs| as u8),
    Some((b: Small) => |b.outputs| as u8),
    Some((b: Small) => |b.aliases| as u8))

  ghost predicate Banks(ls: seq<Module<Small>>) {
    forall i :: 0 <= i < |ls| ==> ls[i].driver == BANK
  }

  /** Reading input `id` gives the register with the input's own number in the owner's context. */
  lemma BankInput(sys: System<Small>, m: seq<Small>, id: u8, p: nat)
    requires Fits(Leaves(sys), |m|) && Banks(Leaves(sys))
    requires Total(Leaves(sys), m, Input) <= 0xFF && Has(Leaves(sys), m, Input, id, p)
    ensures var b := m[Leaves(sys)[p].ctx];
      var own := Own(Leaves(sys), m, Input, id, p);
      own < |b.inputs| && GuardedRead(sys, m, Input, id) == Value(b.inputs[own])
  {
    ReadInputCalls(sys, m, id, p);
  }

  lemma BankOutput(sys: System<Small>, m: seq<Small>, id: u8, p: nat)
    requires Fits(Leaves(sys), |m|) && Banks(Leaves(sys))
    requires Total(Leaves(sys), m, Output) <= 0xFF && Has(Leaves(sys), m, Output, id, p)
    ensures var b := m[Leaves(sys)[p].ctx];
      var own := Own(Leaves(sys), m, Output, id, p);
      own < |b.outputs| && GuardedRead(sys, m, Output, id) == Value(b.outputs[own])
  {
    ReadOutputCalls(sys, m, id, p);
  }

  /** Calling function `id` hands its own number and all arguments to the owner, and to nobody else. */
  lemma BankCalled(sys: System<Small>, m: seq<Small>, id: u8, args: seq<int32>, p: nat)
    requires Fits(Leaves(sys), |m|) && Banks(Leaves(sys))
    requires Total(Leaves(sys), m, Func) <= 0xFF && Has(Leaves(sys), m, Func, id, p)
    ensures var ctx := Leaves(sys)[p].ctx;
      var e := GuardedInvoke(sys, m, id, args);
      && e.status == OK && |e.mem| == |m|
      && e.mem[ctx] == m[ctx].(calls := m[ctx].calls + [Request(Own(Leaves(sys), m, Func, id, p), args)])
      && forall a :: 0 <= a < |m| && a != ctx ==> e.mem[a] == m[a]
  {
    InvokeCalls(sys, m, id, args, p);
  }

  /** Alias `id` is the owner's alias with the number left after the aliases of the leaves before. */
  lemma BankAliased(sys: System<Small>, m: seq<Small>, id: u8, info: CmdInfo, p: nat)
    requires Fits(Leaves(sys), |m|) && Banks(Leaves(sys))
    requires Total(Leaves(sys), m, Alias) <= 0xFF && Has(Leaves(sys), m, Alias, id, p)
    ensures var b := m[Leaves(sys)[p].ctx];
      var own := Own(Leaves(sys), m, Alias, id, p);
      var a := GuardedAlias(sys, m, id, info);
      && own < |b.aliases| && a.status == OK
      && a.info.alias == b.aliases[own].alias && a.info.cmd == b.aliases[own].cmd
      && a.info.id == (b.aliases[own].id + Start(Leaves(sys), m, MemberKind(a.info.cmd), p)) % 0x100
      && a.info.hasPreset == b.aliases[own].hasPreset && a.info.preset == b.aliases[own].preset
  {
    AliasCalls(sys, m, id, info, p);
  }

  ghost predicate Disjoint<S>(ls: seq<Module<S>>) {
    forall i, j :: 0 <= i < j < |ls| ==> ls[i].ctx != ls[j].ctx
  }

  /** The number of members before a leaf depends on the counts only. */
  lemma {:induction false} StartAlike<S>(ls: seq<Module<S>>, m: seq<S>, m': seq<S>, k: Kind, p: nat)
    requires Fits(ls, |m|) && |m| == |m'| && p <= |ls|
    requires forall i :: 0 <= i < |ls| ==> LeafCount(ls[i], m, k) == LeafCount(ls[i], m', k)
    ensures Start(ls, m, k, p) == Start(ls, m', k, p) && Total(ls, m, k) == Total(ls, m', k)
    decreases |ls|
  {
    if ls != [] {
      forall i | 0 <= i < |ls[1..]| ensures LeafCount(ls[1..][i], m, k) == LeafCount(ls[1..][i], m', k) {
        assert ls[1..][i] == ls[i + 1];
      }
      StartAlike(ls[1..], m, m', k, if p > 0 then p - 1 else 0);
    }
  }

  /** A write to `id` changes exactly one register: the one with the member's own number at the owner. */
  lemma BankWritten(sys: System<Small>, m: seq<Small>, id: u8, v: int32, p: nat)
    requires Fits(Leaves(sys), |m|) && Banks(Leaves(sys))
    requires Total(Leaves(sys), m, Input) <= 0xFF && Has(Leaves(sys), m, Input, id, p)
    ensures var ctx := Leaves(sys)[p].ctx;
      var own := Own(Leaves(sys), m, Input, id, p);
      var e := GuardedWrite(sys, m, id, v);
      && e.status == OK && own < |m[ctx].inputs| && |e.mem| == |m|
      && e.mem[ctx] == m[ctx].(inputs := m[ctx].inputs[own := v])
      && forall a :: 0 <= a < |m| && a != ctx ==> e.mem[a] == m[a]
  {
    WriteCalls(sys, m, id, v, p);
  }

  /** One input register was rewritten, and nothing else. */
  ghost predicate Rewritten(m: seq<Small>, m': seq<Small>, ctx: nat, own: u8, v: int32) {
    && |m'| == |m| && ctx < |m| && own < |m[ctx].inputs|
    && m'[ctx] == m[ctx].(inputs := m[ctx].inputs[own := v])
    && forall a :: 0 <= a < |m| && a != ctx ==> m'[a] == m[a]
  }

  /** The counts of banks do not change when one register is written. */
  lemma BankKeepsCounts(ls: seq<Module<Small>>, m: seq<Small>, m': seq<Small>, ctx: nat, own: u8, v: int32, k: Kind, q: nat)
    requires Fits(ls, |m|) && Banks(ls) && Rewritten(m, m', ctx, own, v) && q <= |ls|
    ensures Start(ls, m, k, q) == Start(ls, m', k, q) && Total(ls, m, k) == Total(ls, m', k)
    ensures forall i :: 0 <= i < |ls| ==> LeafCount(ls[i], m, k) == LeafCount(ls[i], m', k)
  {
    forall i | 0 <= i < |ls| ensures LeafCount(ls[i], m, k) == LeafCount(ls[i], m', k) {
      assert ls[i].driver == BANK;
    }
    StartAlike(ls, m, m', k, q);
  }

  lemma InputRewritten(sys: System<Small>, m: seq<Small>, m': seq<Small>, ctx: nat, own: u8, v: int32, j: u8, q: nat)
    requires Fits(Leaves(sys), |m|) && Banks(Leaves(sys)) && Rewritten(m, m', ctx, own, v)
    requires Total(Leaves(sys), m, Input) <= 0xFF && Has(Leaves(sys), m, Input, j, q)
    ensures GuardedRead(sys, m', Input, j) ==
      if Leaves(sys)[q].ctx == ctx && Own(Leaves(sys), m, Input, j, q) == own then Value(v) else GuardedRead(sys, m, Input, j)
  {
    BankKeepsCounts(Leaves(sys), m, m', ctx, own, v, Input, q);
    BankInput(sys, m, j, q);
    BankInput(sys, m', j, q);
  }

  lemma OutputRewritten(sys: System<Small>, m: seq<Small>, m': seq<Small>, ctx: nat, own: u8, v: int32, j: u8, q: nat)
    requires Fits(Leaves(sys), |m|) && Banks(Leaves(sys)) && Rewritten(m, m', ctx, own, v)
    requires Total(Leaves(sys), m, Output) <= 0xFF && Has(Leaves(sys), m, Output, j, q)
    ensures GuardedRead(sys, m', Output, j) == GuardedRead(sys, m, Output, j)
  {
    BankKeepsCounts(Leaves(sys), m, m', ctx, own, v, Output, q);
    BankOutput(sys, m, j, q);
    BankOutput(sys, m', j, q);
  }

  /** Two ids meet in one register of one leaf only if they are equal. */
  lemma SameRegister(ls: seq<Module<Small>>, m: seq<Small>, id: u8, j: u8, p: nat, q: nat)
    requires Fits(ls, |m|) && Disjoint(ls) && Has(ls, m, Input, id, p) && Has(ls, m, Input, j, q)
    ensures ls[p].ctx == ls[q].ctx && Own(ls, m, Input, id, p) == Own(ls, m, Input, j, q) <==> id == j
  {
    if id == j {
      OwnerUnique(ls, m, Input, id, Slot(p, Own(ls, m, Input, id, p)), Slot(q, Own(ls, m, Input, j, q)));
    }
  }

  lemma InputAfterWrite(sys: System<Small>, m: seq<Small>, id: u8, v: int32, j: u8, p: nat, m': seq<Small>)
    requires Fits(Leaves(sys), |m|) && Banks(Leaves(sys)) && Disjoint(Leaves(sys))
    requires Total(Leaves(sys), m, Input) <= 0xFF && Has(Leaves(sys), m, Input, id, p)
    requires Rewritten(m, m', Leaves(sys)[p].ctx, Own(Leaves(sys), m, Input, id, p), v)
    requires j < Total(Leaves(sys), m, Input)
    ensures GuardedRead(sys, m', Input, j) == if j == id then Value(v) else GuardedRead(sys, m, Input, j)
  {
    var q := HasOne(sys, m, Input, j);
    InputRewritten(sys, m, m', Leaves(sys)[p].ctx, Own(Leaves(sys), m, Input, id, p), v, j, q);
    SameRegister(Leaves(sys), m, id, j, p, q);
  }

  /** Writing and reading by number: the input written reads back the value, and every other input, of the
      same leaf or of another one, and every output, reads as before. */
  lemma BankReadAfterWrite(sys: System<Small>, m: seq<Small>, id: u8, v: int32, j: u8)
    requires Fits(Leaves(sys), |m|) && Banks(Leaves(sys)) && Disjoint(Leaves(sys))
    requires Total(Leaves(sys), m, Input) <= 0xFF && Total(Leaves(sys), m, Output) <= 0xFF
    requires id < Total(Leaves(sys), m, Input)
    ensures var m' := GuardedWrite(sys, m, id, v).mem;
      && |m'| == |m|
      && (j < Total(Leaves(sys), m, Input) ==>
            GuardedRead(sys, m', Input, j) == if j == id then Value(v) else GuardedRead(sys, m, Input, j))
      && (j < Total(Leaves(sys), m, Output) ==> GuardedRead(sys, m', Output, j) == GuardedRead(sys, m, Output, j))
  {
    var p := HasOne(sys, m, Input, id);
    BankWritten(sys, m, id, v, p);
    var m', own := GuardedWrite(sys, m, id, v).mem, Own(Leaves(sys), m, Input, id, p);
    if j < Total(Leaves(sys), m, Input) {
      InputAfterWrite(sys, m, id, v, j, p, m');
    }
    if j < Total(Leaves(sys), m, Output) {
      var q := HasOne(sys, m, Output, j);
      OutputRewritten(sys, m, m', Leaves(sys)[p].ctx, own, v, j, q);
    }
  }
}
