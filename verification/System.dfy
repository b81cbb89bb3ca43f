// Systems: drivers as records of optional handlers, composites as trees over them,
// contexts in one memory. Routing by running subtraction, against prefix-sum lookup over the leaves.

module Systems {
  import opened Basics

  datatype Kind = Input | Output | Func | Alias

  datatype CmdType = UnknownCmd | InputCmd | OutputCmd | FuncCmd

  datatype CmdInfo = CmdInfo(alias: Option<string>, cmd: CmdType, id: u8, hasPreset: bool, preset: int32)

  /** A handler table; `None` is a NULL function pointer. Handlers see and change only their own context. */
  datatype Driver<!S> = Driver(
    invoke: Option<(S, u8, seq<int32>) -> (S, Status)>,
    writeInput: Option<(S, u8, int32) -> (S, Status)>,
    readInput: Option<(S, u8) -> Result>,
    readOutput: Option<(S, u8) -> Result>,
    getAlias: Option<(S, u8, CmdInfo) -> (CmdInfo, Status)>,
    functionCount: Option<S -> u8>,
    inputCount: Option<S -> u8>,
    outputCount: Option<S -> u8>,
    aliasCount: Option<S -> u8>)

  /** A leaf driver and the address of its context. */
  datatype Module<!S> = Module(driver: Driver<S>, ctx: nat)

  datatype System<!S> = Leaf(leaf: Module<S>) | Composite(children: seq<System<S>>)

  // ---------- Counts ----------

  function Leaves<S>(sys: System<S>): seq<Module<S>>
    decreases sys, 1
  {
    match sys
    case Leaf(l) => [l]
    case Composite(cs) => LeavesAll(cs)
  }

  function LeavesAll<S>(cs: seq<System<S>>): seq<Module<S>>
    decreases cs, 0
  {
    if cs == [] then [] else Leaves(cs[0]) + LeavesAll(cs[1..])
  }

  /** Every context address lies in a memory of `n` contexts. */
  predicate Fits<S>(ls: seq<Module<S>>, n: nat) {
    forall i :: 0 <= i < |ls| ==> ls[i].ctx < n
  }

  function Counter<S>(d: Driver<S>, k: Kind): Option<S -> u8> {
    match k
    case Input => d.inputCount
    case Output => d.outputCount
    case Func => d.functionCount
    case Alias => d.aliasCount
  }

  function LeafCount<S>(l: Module<S>, m: seq<S>, k: Kind): u8
    requires l.ctx < |m|
  {
    match Counter(l.driver, k)
    case None => 0
    case Some(f) => f(m[l.ctx])
  }

  /** The 8-bit count a driver reports. */
  function Count<S>(sys: System<S>, m: seq<S>, k: Kind): u8
    requires Fits(Leaves(sys), |m|)
    decreases sys, 1
  {
    match sys
    case Leaf(l) =>
      assert Leaves(sys)[0] == l;
      LeafCount(l, m, k)
    case Composite(cs) => Low8(Sum(cs, m, k))
  }

  /** The sum of the children's reported counts, before it is stored in 8 bits. */
  function Sum<S>(cs: seq<System<S>>, m: seq<S>, k: Kind): nat
    requires Fits(LeavesAll(cs), |m|)
    decreases cs, 0
  {
    if cs == [] then 0
    else
      FitsSplit(cs, |m|);
      Count(cs[0], m, k) + Sum(cs[1..], m, k)
  }

  lemma FitsSplit<S>(cs: seq<System<S>>, n: nat)
    requires cs != [] && Fits(LeavesAll(cs), n)
    ensures Fits(Leaves(cs[0]), n) && Fits(LeavesAll(cs[1..]), n)
  {
    FitsAppend(Leaves(cs[0]), LeavesAll(cs[1..]), n);
  }

  lemma FitsAppend<S>(a: seq<Module<S>>, b: seq<Module<S>>, n: nat)
    ensures Fits(a + b, n) <==> Fits(a, n) && Fits(b, n)
  {
    assert forall i :: 0 <= i < |a| ==> a[i] == (a + b)[i];
    assert forall i :: 0 <= i < |b| ==> b[i] == (a + b)[|a| + i];
  }

  /** The true number of members of a leaf list. */
  function Total<S>(ls: seq<Module<S>>, m: seq<S>, k: Kind): nat
    requires Fits(ls, |m|)
  {
    if ls == [] then 0 else LeafCount(ls[0], m, k) + Total(ls[1..], m, k)
  }

  lemma {:induction false} TotalAppend<S>(a: seq<Module<S>>, b: seq<Module<S>>, m: seq<S>, k: Kind)
    requires Fits(a, |m|) && Fits(b, |m|)
    ensures Fits(a + b, |m|) && Total(a + b, m, k) == Total(a, m, k) + Total(b, m, k)
  {
    if a == [] {
      assert a + b == b;
    } else {
      assert (a + b)[1..] == a[1..] + b;
      TotalAppend(a[1..], b, m, k);
    }
  }

  /** A reported count is the true one modulo 256, at any nesting depth. */
  lemma {:induction false} CountWraps<S>(sys: System<S>, m: seq<S>, k: Kind)
    requires Fits(Leaves(sys), |m|)
    ensures Count(sys, m, k) == Low8(Total(Leaves(sys), m, k))
    decreases sys, 1
  {
    match sys
    case Leaf(l) =>
      assert [l][1..] == [] && Leaves(sys)[0] == l;
      Low8Small(LeafCount(l, m, k));
    case Composite(cs) => SumWraps(cs, m, k);
  }

  lemma {:induction false} SumWraps<S>(cs: seq<System<S>>, m: seq<S>, k: Kind)
    requires Fits(LeavesAll(cs), |m|)
    ensures Low8(Sum(cs, m, k)) == Low8(Total(LeavesAll(cs), m, k))
    decreases cs, 0
  {
    if cs != [] {
      FitsSplit(cs, |m|);
      CountWraps(cs[0], m, k);
      SumWraps(cs[1..], m, k);
      TotalAppend(Leaves(cs[0]), LeavesAll(cs[1..]), m, k);
      Low8Add(Count(cs[0], m, k), Sum(cs[1..], m, k));
      Low8Small(Count(cs[0], m, k));
      Low8Add(Total(Leaves(cs[0]), m, k), Total(LeavesAll(cs[1..]), m, k));
    }
  }

  lemma CountSmall<S>(sys: System<S>, m: seq<S>, k: Kind)
    requires Fits(Leaves(sys), |m|) && Total(Leaves(sys), m, k) <= 0xFF
    ensures Count(sys, m, k) == Total(Leaves(sys), m, k)
  {
    CountWraps(sys, m, k);
    Low8Small(Total(Leaves(sys), m, k));
  }

  // ---------- Routing ----------

  /** A member: which leaf, counted from the left, and its id there. */
  datatype Slot = Slot(leaf: nat, local: u8)

  /** Routing by running subtraction. The leaf reached always has more members than the id it is given. */
  function Locate<S>(sys: System<S>, m: seq<S>, k: Kind, id: u8): (s: Option<Slot>)
    requires Fits(Leaves(sys), |m|)
    ensures s.Some? ==> s.value.leaf < |Leaves(sys)| && s.value.local < LeafCount(Leaves(sys)[s.value.leaf], m, k)
    decreases sys, 1
  {
    match sys
    case Leaf(l) =>
      assert Leaves(sys)[0] == l;
      if id < LeafCount(l, m, k) then Some(Slot(0, id)) else None
    case Composite(cs) => LocateAll(cs, m, k, id)
  }

  function LocateAll<S>(cs: seq<System<S>>, m: seq<S>, k: Kind, id: u8): (s: Option<Slot>)
    requires Fits(LeavesAll(cs), |m|)
    ensures s.Some? ==> s.value.leaf < |LeavesAll(cs)| && s.value.local < LeafCount(LeavesAll(cs)[s.value.leaf], m, k)
    decreases cs, 0
  {
    if cs == [] then None
    else
      FitsSplit(cs, |m|);
      var count := Count(cs[0], m, k);
      if id < count then Locate(cs[0], m, k, id)
      else
        match LocateAll(cs[1..], m, k, id - count)
        case None => None
        case Some(s) => Some(Slot(|Leaves(cs[0])| + s.leaf, s.local))
  }

  /** The number of ids a router can place: a leaf's count, or the unreduced sum over the children. */
  function Reach<S>(sys: System<S>, m: seq<S>, k: Kind): nat
    requires Fits(Leaves(sys), |m|)
  {
    match sys
    case Leaf(l) => Count(sys, m, k)
    case Composite(cs) => Sum(cs, m, k)
  }

  /** A handler is found exactly for the ids below the reach: the subtraction never underflows. */
  lemma {:induction false} LocateDomain<S>(sys: System<S>, m: seq<S>, k: Kind, id: u8)
    requires Fits(Leaves(sys), |m|)
    ensures Locate(sys, m, k, id).Some? <==> id < Reach(sys, m, k)
    decreases sys, 1
  {
    if sys.Composite? {
      LocateAllDomain(sys.children, m, k, id);
    }
  }

  lemma {:induction false} LocateAllDomain<S>(cs: seq<System<S>>, m: seq<S>, k: Kind, id: u8)
    requires Fits(LeavesAll(cs), |m|)
    ensures LocateAll(cs, m, k, id).Some? <==> id < Sum(cs, m, k)
    decreases cs, 0
  {
    if cs != [] {
      FitsSplit(cs, |m|);
      var count := Count(cs[0], m, k);
      if id < count {
        LocateDomain(cs[0], m, k, id);
        assert count <= Reach(cs[0], m, k);
      } else {
        LocateAllDomain(cs[1..], m, k, id - count);
      }
    }
  }

  /** The guard compares the id with the reported count. */
  predicate GuardAdmits<S>(sys: System<S>, m: seq<S>, k: Kind, id: u8)
    requires Fits(Leaves(sys), |m|)
  {
    id < Count(sys, m, k)
  }

  /** The guard rejects exactly what the router cannot place, on all ids,
      if and only if the system's reach fits in 8 bits. */
  lemma GuardAgreesIffBounded<S>(sys: System<S>, m: seq<S>, k: Kind)
    requires Fits(Leaves(sys), |m|)
    ensures (forall id: u8 :: GuardAdmits(sys, m, k, id) <==> Locate(sys, m, k, id).Some?)
      <==> Reach(sys, m, k) <= 0xFF
  {
    forall id: u8 ensures Locate(sys, m, k, id).Some? <==> id < Reach(sys, m, k) {
      LocateDomain(sys, m, k, id);
    }
    if Reach(sys, m, k) > 0xFF {
      var last: u8 := 0xFF;
      assert Locate(sys, m, k, last).Some? && !GuardAdmits(sys, m, k, last);
    }
  }

  // ---------- Prefix-sum lookup over the flat leaf list ----------

  /** The number of members before leaf `p`. */
  function Start<S>(ls: seq<Module<S>>, m: seq<S>, k: Kind, p: nat): nat
    requires Fits(ls, |m|) && p <= |ls|
  {
    if p == 0 then 0 else LeafCount(ls[0], m, k) + Start(ls[1..], m, k, p - 1)
  }

  lemma {:induction false} StartAppend<S>(a: seq<Module<S>>, b: seq<Module<S>>, m: seq<S>, k: Kind, p: nat)
    requires Fits(a, |m|) && Fits(b, |m|) && p <= |a| + |b|
    ensures Fits(a + b, |m|)
    ensures Start(a + b, m, k, p) ==
      if p <= |a| then Start(a, m, k, p) else Total(a, m, k) + Start(b, m, k, p - |a|)
    decreases |a|
  {
    if a == [] {
      assert a + b == b;
    } else if p > 0 {
      assert (a + b)[1..] == a[1..] + b;
      StartAppend(a[1..], b, m, k, p - 1);
      if p == |a| {
        StartAtEnd(a, m, k);
      }
    }
  }

  lemma {:induction false} StartAtEnd<S>(ls: seq<Module<S>>, m: seq<S>, k: Kind)
    requires Fits(ls, |m|)
    ensures Start(ls, m, k, |ls|) == Total(ls, m, k)
  {
    if ls != [] {
      StartAtEnd(ls[1..], m, k);
    }
  }

  lemma {:induction false} StartStep<S>(ls: seq<Module<S>>, m: seq<S>, k: Kind, p: nat)
    requires Fits(ls, |m|) && p < |ls|
    ensures Start(ls, m, k, p + 1) == Start(ls, m, k, p) + LeafCount(ls[p], m, k)
  {
    if p > 0 {
      StartStep(ls[1..], m, k, p - 1);
    }
  }

  lemma {:induction false} StartMonotone<S>(ls: seq<Module<S>>, m: seq<S>, k: Kind, p: nat, q: nat)
    requires Fits(ls, |m|) && p <= q <= |ls|
    ensures Start(ls, m, k, p) <= Start(ls, m, k, q)
    decreases q - p
  {
    if p < q {
      StartStep(ls, m, k, p);
      StartMonotone(ls, m, k, p + 1, q);
    }
  }

  /** The reference: leaf `p` owns the ids from `Start(p)` up to `Start(p + 1)`. */
  ghost predicate Owns<S>(ls: seq<Module<S>>, m: seq<S>, k: Kind, id: u8, s: Slot)
    requires Fits(ls, |m|)
  {
    && s.leaf < |ls|
    && s.local < LeafCount(ls[s.leaf], m, k)
    && id == Start(ls, m, k, s.leaf) + s.local
  }

  lemma OwnerUnique<S>(ls: seq<Module<S>>, m: seq<S>, k: Kind, id: u8, s: Slot, t: Slot)
    requires Fits(ls, |m|) && Owns(ls, m, k, id, s) && Owns(ls, m, k, id, t)
    ensures s == t
  {
    StartStep(ls, m, k, s.leaf);
    StartStep(ls, m, k, t.leaf);
    if s.leaf < t.leaf {
      StartMonotone(ls, m, k, s.leaf + 1, t.leaf);
    } else if t.leaf < s.leaf {
      StartMonotone(ls, m, k, t.leaf + 1, s.leaf);
    }
  }

  /** No proper subsystem has more members than an 8-bit count can tell. The top one may. */
  ghost predicate Modest<S>(sys: System<S>, m: seq<S>, k: Kind)
    requires Fits(Leaves(sys), |m|)
  {
    sys.Composite? ==> ModestAll(sys.children, m, k)
  }

  ghost predicate ModestAll<S>(cs: seq<System<S>>, m: seq<S>, k: Kind)
    requires Fits(LeavesAll(cs), |m|)
  {
    if cs == [] then true
    else
      FitsSplit(cs, |m|);
      Total(Leaves(cs[0]), m, k) <= 0xFF && ModestAll(cs[1..], m, k)
  }

  /** A total of at most 255 is enough. */
  lemma {:induction false} SmallIsModest<S>(cs: seq<System<S>>, m: seq<S>, k: Kind)
    requires Fits(LeavesAll(cs), |m|) && Total(LeavesAll(cs), m, k) <= 0xFF
    ensures ModestAll(cs, m, k)
    ensures Sum(cs, m, k) == Total(LeavesAll(cs), m, k)
    decreases cs
  {
    if cs != [] {
      FitsSplit(cs, |m|);
      TotalAppend(Leaves(cs[0]), LeavesAll(cs[1..]), m, k);
      SmallIsModest(cs[1..], m, k);
      CountSmall(cs[0], m, k);
    }
  }

  lemma CountExact<S>(sys: System<S>, m: seq<S>, k: Kind)
    requires Fits(Leaves(sys), |m|) && Total(Leaves(sys), m, k) <= 0xFF
    ensures Count(sys, m, k) == Total(Leaves(sys), m, k)
    ensures Modest(sys, m, k)
  {
    CountSmall(sys, m, k);
    if sys.Composite? {
      SmallIsModest(sys.children, m, k);
    }
  }

  /** What a search over a leaf list must return. */
  ghost predicate Found<S>(ls: seq<Module<S>>, m: seq<S>, k: Kind, id: u8, s: Option<Slot>)
    requires Fits(ls, |m|)
  {
    match s
    case Some(s) => Owns(ls, m, k, id, s)
    case None => id >= Total(ls, m, k)
  }

  /** Routing finds the owner, at any nesting depth. */
  lemma {:induction false} LocateFindsOwner<S>(sys: System<S>, m: seq<S>, k: Kind, id: u8)
    requires Fits(Leaves(sys), |m|) && Modest(sys, m, k)
    ensures Found(Leaves(sys), m, k, id, Locate(sys, m, k, id))
    decreases sys, 1
  {
    match sys
    case Leaf(l) =>
      assert [l][1..] == [];
    case Composite(cs) => LocateAllFindsOwner(cs, m, k, id);
  }

  lemma {:induction false} LocateAllFindsOwner<S>(cs: seq<System<S>>, m: seq<S>, k: Kind, id: u8)
    requires Fits(LeavesAll(cs), |m|) && ModestAll(cs, m, k)
    ensures Found(LeavesAll(cs), m, k, id, LocateAll(cs, m, k, id))
    decreases cs, 0
  {
    if cs != [] {
      FitsSplit(cs, |m|);
      CountExact(cs[0], m, k);
      var count := Count(cs[0], m, k);
      if id < count {
        LocateFindsOwner(cs[0], m, k, id);
        FoundInFirst(cs, m, k, id);
      } else {
        LocateAllFindsOwner(cs[1..], m, k, id - count);
        FoundInRest(cs, m, k, id);
      }
    }
  }

  lemma FoundInFirst<S>(cs: seq<System<S>>, m: seq<S>, k: Kind, id: u8)
    requires cs != [] && Fits(LeavesAll(cs), |m|) && Fits(Leaves(cs[0]), |m|)
    requires id < Count(cs[0], m, k) == Total(Leaves(cs[0]), m, k)
    requires Found(Leaves(cs[0]), m, k, id, Locate(cs[0], m, k, id))
    ensures Found(LeavesAll(cs), m, k, id, LocateAll(cs, m, k, id))
  {
    FitsSplit(cs, |m|);
    var s := Locate(cs[0], m, k, id);
    assert LocateAll(cs, m, k, id) == s && s.Some?;
    OwnsLeft(Leaves(cs[0]), LeavesAll(cs[1..]), m, k, id, s.value);
  }

  lemma FoundInRest<S>(cs: seq<System<S>>, m: seq<S>, k: Kind, id: u8)
    requires cs != [] && Fits(LeavesAll(cs), |m|) && Fits(Leaves(cs[0]), |m|) && Fits(LeavesAll(cs[1..]), |m|)
    requires Count(cs[0], m, k) == Total(Leaves(cs[0]), m, k) <= id
    requires var id' := id - Count(cs[0], m, k);
      Found(LeavesAll(cs[1..]), m, k, id', LocateAll(cs[1..], m, k, id'))
    ensures Found(LeavesAll(cs), m, k, id, LocateAll(cs, m, k, id))
  {
    var a, b := Leaves(cs[0]), LeavesAll(cs[1..]);
    var s := LocateAll(cs[1..], m, k, id - Count(cs[0], m, k));
    if s.Some? {
      assert LocateAll(cs, m, k, id) == Some(Slot(|a| + s.value.leaf, s.value.local));
      OwnsRight(a, b, m, k, id, s.value);
    } else {
      TotalAppend(a, b, m, k);
      assert LocateAll(cs, m, k, id) == None;
    }
  }

  lemma OwnsLeft<S>(a: seq<Module<S>>, b: seq<Module<S>>, m: seq<S>, k: Kind, id: u8, s: Slot)
    requires Fits(a, |m|) && Fits(b, |m|) && Owns(a, m, k, id, s)
    ensures Fits(a + b, |m|) && Owns(a + b, m, k, id, s)
  {
    StartAppend(a, b, m, k, s.leaf);
  }

  lemma OwnsRight<S>(a: seq<Module<S>>, b: seq<Module<S>>, m: seq<S>, k: Kind, id: u8, s: Slot)
    requires Fits(a, |m|) && Fits(b, |m|) && id >= Total(a, m, k) && Owns(b, m, k, id - Total(a, m, k), s)
    ensures Fits(a + b, |m|) && Owns(a + b, m, k, id, Slot(|a| + s.leaf, s.local))
  {
    StartAppend(a, b, m, k, |a| + s.leaf);
    StartAtEnd(a, m, k);
  }

  /** Routing is prefix-sum lookup: it reaches a slot if and only if that slot owns the id,
      and fails if and only if the id is at least the true total. */
  lemma RoutingIsPrefixSumLookup<S>(sys: System<S>, m: seq<S>, k: Kind, id: u8, s: Slot)
    requires Fits(Leaves(sys), |m|) && Modest(sys, m, k)
    ensures Locate(sys, m, k, id) == Some(s) <==> Owns(Leaves(sys), m, k, id, s)
    ensures Locate(sys, m, k, id) == None <==> id >= Total(Leaves(sys), m, k)
  {
    var ls := Leaves(sys);
    LocateFindsOwner(sys, m, k, id);
    var found := Locate(sys, m, k, id);
    if found.Some? {
      StartStep(ls, m, k, found.value.leaf);
      StartMonotone(ls, m, k, found.value.leaf + 1, |ls|);
      if Owns(ls, m, k, id, s) {
        OwnerUnique(ls, m, k, id, s, found.value);
      }
    } else if Owns(ls, m, k, id, s) {
      StartStep(ls, m, k, s.leaf);
      StartMonotone(ls, m, k, s.leaf + 1, |ls|);
    }
    StartAtEnd(ls, m, k);
  }

  // ---------- Flattening ----------

  /** One composite directly over a list of leaves. */
  function Flat<S>(ls: seq<Module<S>>): seq<System<S>> {
    if ls == [] then [] else [Leaf(ls[0])] + Flat(ls[1..])
  }

  lemma {:induction false} FlatLeaves<S>(ls: seq<Module<S>>)
    ensures LeavesAll(Flat(ls)) == ls
  {
    if ls != [] {
      assert Flat(ls)[1..] == Flat(ls[1..]);
      FlatLeaves(ls[1..]);
    }
  }

  lemma {:induction false} FlatIsModest<S>(ls: seq<Module<S>>, m: seq<S>, k: Kind)
    requires Fits(ls, |m|) && LeavesAll(Flat(ls)) == ls
    ensures ModestAll(Flat(ls), m, k)
  {
    if ls != [] {
      assert Flat(ls)[1..] == Flat(ls[1..]);
      FlatLeaves(ls[1..]);
      assert Leaves(Flat(ls)[0]) == [ls[0]] && [ls[0]][1..] == [];
      FlatIsModest(ls[1..], m, k);
    }
  }

  function Flatten<S>(sys: System<S>): System<S> {
    Composite(Flat(Leaves(sys)))
  }

  /** Every child of the flattened composite is a leaf of the tree, in order. */
  lemma {:induction false} FlatIs<S>(ls: seq<Module<S>>)
    ensures |Flat(ls)| == |ls| && forall i :: 0 <= i < |ls| ==> Flat(ls)[i] == Leaf(ls[i])
  {
    if ls != [] {
      FlatIs(ls[1..]);
      forall i | 0 <= i < |ls| ensures Flat(ls)[i] == Leaf(ls[i]) {
        assert i > 0 ==> Flat(ls)[i] == Flat(ls[1..])[i - 1] && ls[i] == ls[1..][i - 1];
      }
    }
  }

  /** Nesting does not matter: a tree routes like the flat composite over its leaves in order. */
  lemma FlatteningKeepsRouting<S>(sys: System<S>, m: seq<S>, k: Kind, id: u8)
    requires Fits(Leaves(sys), |m|) && Modest(sys, m, k)
    ensures Leaves(Flatten(sys)) == Leaves(sys)
    ensures Flatten(sys).Composite? && |Flatten(sys).children| == |Leaves(sys)|
    ensures forall i :: 0 <= i < |Leaves(sys)| ==> Flatten(sys).children[i] == Leaf(Leaves(sys)[i])
    ensures Locate(Flatten(sys), m, k, id) == Locate(sys, m, k, id)
  {
    FlatIs(Leaves(sys));
    FlatLeaves(Leaves(sys));
    FlatIsModest(Leaves(sys), m, k);
    LocateFindsOwner(sys, m, k, id);
    match Locate(sys, m, k, id)
    case Some(s) => RoutingIsPrefixSumLookup(Flatten(sys), m, k, id, s);
    case None => RoutingIsPrefixSumLookup(Flatten(sys), m, k, id, Slot(0, 0));
  }
}
