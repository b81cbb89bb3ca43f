// The guarded system interface and the loops over composite children, on a memory array.

module SystemCore {
  import opened Basics
  import opened Systems
  import opened Dispatch

  // ---------- The guards ----------

  function GuardedWrite<S>(sys: System<S>, m: seq<S>, id: u8, v: int32): (e: Effect<S>)
    requires Fits(Leaves(sys), |m|)
    ensures |e.mem| == |m|
  {
    if sys.Leaf? && (sys.leaf.driver.writeInput.None? || sys.leaf.driver.inputCount.None?) then Effect(m, NOT_SUPPORTED)
    else if id >= Count(sys, m, Input) then Effect(m, INVALID_ARGS)
    else Write(sys, m, id, v)
  }

  function GuardedInvoke<S>(sys: System<S>, m: seq<S>, id: u8, args: seq<int32>): (e: Effect<S>)
    requires Fits(Leaves(sys), |m|)
    ensures |e.mem| == |m|
  {
    if sys.Leaf? && (sys.leaf.driver.invoke.None? || sys.leaf.driver.functionCount.None?) then Effect(m, NOT_SUPPORTED)
    else if id >= Count(sys, m, Func) then Effect(m, INVALID_ARGS)
    else Invoke(sys, m, id, args)
  }

  /** The guarded read of an input or an output. */
  function GuardedRead<S>(sys: System<S>, m: seq<S>, k: Kind, id: u8): Result
    requires Fits(Leaves(sys), |m|)
  {
    if sys.Leaf? && ((if k.Input? then sys.leaf.driver.readInput else sys.leaf.driver.readOutput).None?
                     || Counter(sys.leaf.driver, k).None?) then Err(NOT_SUPPORTED)
    else if id >= Count(sys, m, k) then Err(INVALID_ARGS)
    else Read(sys, m, k, id)
  }

  function GuardedAlias<S>(sys: System<S>, m: seq<S>, id: u8, info: CmdInfo): Named
    requires Fits(Leaves(sys), |m|)
  {
    if sys.Leaf? && (sys.leaf.driver.getAlias.None? || sys.leaf.driver.aliasCount.None?) then Named(info, NOT_SUPPORTED)
    else if id >= Count(sys, m, Alias) then Named(info, INVALID_ARGS)
    else GetAlias(sys, m, id, info)
  }

  /** Through the guards of a composite with at most 255 members of the kind, exactly the owner of the id
      is asked, with a local id below its own count, and exactly the other ids are rejected. */
  lemma GuardedMeansOwner<S>(cs: seq<System<S>>, m: seq<S>, k: Kind, id: u8, v: int32, args: seq<int32>)
    requires Fits(LeavesAll(cs), |m|) && Total(LeavesAll(cs), m, k) <= 0xFF
    ensures match Locate(Composite(cs), m, k, id)
      case Some(s) =>
        var l := LeavesAll(cs)[s.leaf];
        && Owns(LeavesAll(cs), m, k, id, s) && s.local < LeafCount(l, m, k)
        && (k.Input? ==> GuardedWrite(Composite(cs), m, id, v) == LeafWrite(l, m, s.local, v))
        && (k.Func? ==> GuardedInvoke(Composite(cs), m, id, args) == LeafInvoke(l, m, s.local, args))
        && (k.Input? || k.Output? ==> GuardedRead(Composite(cs), m, k, id) == LeafRead(l, m, k, s.local))
      case None =>
        && id >= Total(LeavesAll(cs), m, k)
        && (k.Input? ==> GuardedWrite(Composite(cs), m, id, v) == Effect(m, INVALID_ARGS))
        && (k.Func? ==> GuardedInvoke(Composite(cs), m, id, args) == Effect(m, INVALID_ARGS))
        && (k.Input? || k.Output? ==> GuardedRead(Composite(cs), m, k, id) == Err(INVALID_ARGS))
  {
    var sys := Composite(cs);
    assert Leaves(sys) == LeavesAll(cs);
    SmallIsModest(cs, m, k);
    LocateFindsOwner(sys, m, k, id);
    GuardAgreesIffBounded(sys, m, k);
    assert GuardAdmits(sys, m, k, id) <==> Locate(sys, m, k, id).Some?;
  }

  // ---------- The loops over the children ----------

  /** `get_*_count` of a driver: its own counter, or the wrapping total of a composite. */
  method DriverCount<S>(sys: System<S>, mem: array<S>, k: Kind) returns (n: u8)
    requires Fits(Leaves(sys), mem.Length)
    ensures n == Count(sys, mem[..], k)
    decreases sys
  {
    match sys {
      case Leaf(l) =>
        assert Leaves(sys)[0] == l;
        match Counter(l.driver, k) {
          case None => n := 0;
          case Some(f) => n := f(mem[l.ctx]);
        }
      case Composite(cs) =>
        n := 0;
        var i := 0;
        Low8Small(0);
        while i < |cs|
          invariant 0 <= i <= |cs| && Fits(LeavesAll(cs[i..]), mem.Length)
          invariant Low8(Sum(cs, mem[..], k)) == Add8(n, Low8(Sum(cs[i..], mem[..], k)))
        {
          FitsSplit(cs[i..], mem.Length);
          assert cs[i..][1..] == cs[i + 1..];
          var c := DriverCount(cs[i], mem, k);
          SumStep(n, c, Sum(cs[i + 1..], mem[..], k));
          n := Low8(n + c);
          i := i + 1;
        }
    }
  }

  lemma SumStep(n: u8, c: u8, rest: nat)
    ensures Add8(n, Low8(c + rest)) == Add8(Low8(n + c), Low8(rest))
  {
    Low8Add(c, rest);
    Low8Small(c);
    Add8Wraps(n, c);
  }

  /** What the unread children still have to decide is the whole decision. */
  lemma LocateStep<S>(cs: seq<System<S>>, i: nat, m: seq<S>, k: Kind, id: u8)
    requires i < |cs| && Fits(LeavesAll(cs[i..]), |m|)
    ensures Fits(Leaves(cs[i]), |m|) && Fits(LeavesAll(cs[i + 1..]), |m|)
    ensures LeavesAll(cs[i..]) == Leaves(cs[i]) + LeavesAll(cs[i + 1..])
    ensures LocateAll(cs[i..], m, k, id) ==
      if id < Count(cs[i], m, k) then Locate(cs[i], m, k, id)
      else match LocateAll(cs[i + 1..], m, k, id - Count(cs[i], m, k))
        case None => None
        case Some(s) => Some(Slot(|Leaves(cs[i])| + s.leaf, s.local))
    ensures id < Count(cs[i], m, k) ==> LocateAll(cs[i..], m, k, id).Some?
  {
    FitsSplit(cs[i..], |m|);
    assert cs[i..][1..] == cs[i + 1..];
    LocateDomain(cs[i], m, k, id);
  }

  /** The handler of a driver: a leaf's own, or the loop of a composite. */
  method DriverWrite<S>(sys: System<S>, mem: array<S>, id: u8, v: int32) returns (st: Status)
    requires Fits(Leaves(sys), mem.Length) && Locate(sys, mem[..], Input, id).Some?
    modifies mem
    ensures Effect(mem[..], st) == Write(sys, old(mem[..]), id, v)
    decreases sys
  {
    match sys {
      case Leaf(l) =>
        assert Leaves(sys)[0] == l;
        match l.driver.writeInput {
          case None => return NOT_SUPPORTED;
          case Some(f) =>
            var r := f(mem[l.ctx], id, v);
            mem[l.ctx] := r.0;
            return r.1;
        }
      case Composite(cs) =>
        st := CompositeWrite(cs, mem, id, v);
    }
  }

  method CompositeWrite<S>(cs: seq<System<S>>, mem: array<S>, id: u8, v: int32) returns (st: Status)
    requires Fits(LeavesAll(cs), mem.Length)
    modifies mem
    ensures Effect(mem[..], st) == Write(Composite(cs), old(mem[..]), id, v)
    decreases cs
  {
    ghost var m := mem[..];
    var rest, i := id, 0;
    while i < |cs|
      invariant 0 <= i <= |cs| && mem[..] == m && Fits(LeavesAll(cs[i..]), |m|)
      invariant Write(Composite(cs), m, id, v) == Write(Composite(cs[i..]), m, rest, v)
    {
      LocateStep(cs, i, m, Input, rest);
      var count := DriverCount(cs[i], mem, Input);
      if rest < count {
        st := DriverWrite(cs[i], mem, rest, v);
        return;
      }
      rest := rest - count;
      i := i + 1;
    }
    return INVALID_ARGS;
  }

  /** The handler of a driver: a leaf's own, or the loop of a composite. */
  method DriverInvoke<S>(sys: System<S>, mem: array<S>, id: u8, args: seq<int32>) returns (st: Status)
    requires Fits(Leaves(sys), mem.Length) && Locate(sys, mem[..], Func, id).Some?
    modifies mem
    ensures Effect(mem[..], st) == Invoke(sys, old(mem[..]), id, args)
    decreases sys
  {
    match sys {
      case Leaf(l) =>
        assert Leaves(sys)[0] == l;
        match l.driver.invoke {
          case None => return NOT_SUPPORTED;
          case Some(f) =>
            var r := f(mem[l.ctx], id, args);
            mem[l.ctx] := r.0;
            return r.1;
        }
      case Composite(cs) =>
        st := CompositeInvoke(cs, mem, id, args);
    }
  }

  method CompositeInvoke<S>(cs: seq<System<S>>, mem: array<S>, id: u8, args: seq<int32>) returns (st: Status)
    requires Fits(LeavesAll(cs), mem.Length)
    modifies mem
    ensures Effect(mem[..], st) == Invoke(Composite(cs), old(mem[..]), id, args)
    decreases cs
  {
    ghost var m := mem[..];
    var rest, i := id, 0;
    while i < |cs|
      invariant 0 <= i <= |cs| && mem[..] == m && Fits(LeavesAll(cs[i..]), |m|)
      invariant Invoke(Composite(cs), m, id, args) == Invoke(Composite(cs[i..]), m, rest, args)
    {
      LocateStep(cs, i, m, Func, rest);
      var count := DriverCount(cs[i], mem, Func);
      if rest < count {
        st := DriverInvoke(cs[i], mem, rest, args);
        return;
      }
      rest := rest - count;
      i := i + 1;
    }
    return INVALID_ARGS;
  }

  method DriverRead<S>(sys: System<S>, mem: array<S>, k: Kind, id: u8) returns (r: Result)
    requires Fits(Leaves(sys), mem.Length) && Locate(sys, mem[..], k, id).Some?
    ensures r == Read(sys, mem[..], k, id)
    decreases sys
  {
    match sys {
      case Leaf(l) =>
        assert Leaves(sys)[0] == l;
        var handler := if k.Input? then l.driver.readInput else l.driver.readOutput;
        r := if handler.None? then Err(NOT_SUPPORTED) else handler.value(mem[l.ctx], id);
      case Composite(cs) =>
        r := CompositeRead(cs, mem, k, id);
    }
  }

  /** The read loops for inputs and outputs. */
  method CompositeRead<S>(cs: seq<System<S>>, mem: array<S>, k: Kind, id: u8) returns (r: Result)
    requires Fits(LeavesAll(cs), mem.Length)
    ensures r == Read(Composite(cs), mem[..], k, id)
    decreases cs
  {
    ghost var m := mem[..];
    var rest, i := id, 0;
    while i < |cs|
      invariant 0 <= i <= |cs| && Fits(LeavesAll(cs[i..]), |m|)
      invariant Read(Composite(cs), m, k, id) == Read(Composite(cs[i..]), m, k, rest)
    {
      LocateStep(cs, i, m, k, rest);
      var count := DriverCount(cs[i], mem, k);
      if rest < count {
        r := DriverRead(cs[i], mem, k, rest);
        return;
      }
      rest := rest - count;
      i := i + 1;
    }
    return Err(INVALID_ARGS);
  }

  /** The running offsets behind one more child, each stored in 8 bits. */
  method Advance<S>(o: Offsets, sys: System<S>, mem: array<S>) returns (r: Offsets)
    requires Fits(Leaves(sys), mem.Length)
    ensures r == Plus(o, Counts(sys, mem[..]))
  {
    var f := DriverCount(sys, mem, Func);
    var x := DriverCount(sys, mem, Input);
    var y := DriverCount(sys, mem, Output);
    Add8Wraps(o.f, f);
    Add8Wraps(o.x, x);
    Add8Wraps(o.y, y);
    r := Offsets(Low8(o.f + f), Low8(o.x + x), Low8(o.y + y));
  }

  method CompositeAlias<S>(cs: seq<System<S>>, mem: array<S>, id: u8, info: CmdInfo) returns (r: CmdInfo, st: Status)
    requires Fits(LeavesAll(cs), mem.Length)
    ensures Named(r, st) == AliasAll(cs, mem[..], id, info, ZERO)
    decreases cs
  {
    r := info;
    var o, rest, i := ZERO, id, 0;
    while i < |cs|
      invariant 0 <= i <= |cs| && r == info && Fits(LeavesAll(cs[i..]), mem.Length)
      invariant AliasAll(cs, mem[..], id, info, ZERO) == AliasAll(cs[i..], mem[..], rest, info, o)
    {
      FitsSplit(cs[i..], mem.Length);
      assert cs[i..][1..] == cs[i + 1..];
      var count := DriverCount(cs[i], mem, Alias);
      if rest < count {
        match cs[i] {
          case Leaf(l) =>
            assert Leaves(cs[i])[0] == l;
            match l.driver.getAlias {
              case None => return r, NOT_SUPPORTED;
              case Some(f) =>
                var named := f(mem[l.ctx], rest, info);
                return Rebase(named.0, o), named.1;
            }
          case Composite(gs) =>
            r, st := CompositeAlias(gs, mem, rest, info);
            return Rebase(r, o), st;
        }
      }
      rest := rest - count;
      o := Advance(o, cs[i], mem);
      i := i + 1;
    }
    return r, INVALID_ARGS;
  }

  // ---------- The guarded operations ----------

  method SysWrite<S>(sys: System<S>, mem: array<S>, id: u8, v: int32) returns (st: Status)
    requires Fits(Leaves(sys), mem.Length)
    modifies mem
    ensures Effect(mem[..], st) == GuardedWrite(sys, old(mem[..]), id, v)
  {
    if sys.Leaf? && (sys.leaf.driver.writeInput.None? || sys.leaf.driver.inputCount.None?) {
      return NOT_SUPPORTED;
    }
    var count := DriverCount(sys, mem, Input);
    if id >= count {
      return INVALID_ARGS;
    }
    LocateDomain(sys, mem[..], Input, id);
    st := DriverWrite(sys, mem, id, v);
  }

  method SysInvoke<S>(sys: System<S>, mem: array<S>, id: u8, args: seq<int32>) returns (st: Status)
    requires Fits(Leaves(sys), mem.Length)
    modifies mem
    ensures Effect(mem[..], st) == GuardedInvoke(sys, old(mem[..]), id, args)
  {
    if sys.Leaf? && (sys.leaf.driver.invoke.None? || sys.leaf.driver.functionCount.None?) {
      return NOT_SUPPORTED;
    }
    var count := DriverCount(sys, mem, Func);
    if id >= count {
      return INVALID_ARGS;
    }
    LocateDomain(sys, mem[..], Func, id);
    st := DriverInvoke(sys, mem, id, args);
  }

  method SysRead<S>(sys: System<S>, mem: array<S>, k: Kind, id: u8) returns (r: Result)
    requires Fits(Leaves(sys), mem.Length)
    ensures r == GuardedRead(sys, mem[..], k, id)
  {
    if sys.Leaf? && ((if k.Input? then sys.leaf.driver.readInput else sys.leaf.driver.readOutput).None?
                     || Counter(sys.leaf.driver, k).None?) {
      return Err(NOT_SUPPORTED);
    }
    var count := DriverCount(sys, mem, k);
    if id >= count {
      return Err(INVALID_ARGS);
    }
    LocateDomain(sys, mem[..], k, id);
    r := DriverRead(sys, mem, k, id);
  }

  method SysAlias<S>(sys: System<S>, mem: array<S>, id: u8, info: CmdInfo) returns (r: CmdInfo, st: Status)
    requires Fits(Leaves(sys), mem.Length)
    ensures Named(r, st) == GuardedAlias(sys, mem[..], id, info)
  {
    if sys.Leaf? && (sys.leaf.driver.getAlias.None? || sys.leaf.driver.aliasCount.None?) {
      return info, NOT_SUPPORTED;
    }
    var count := DriverCount(sys, mem, Alias);
    if id >= count {
      return info, INVALID_ARGS;
    }
    match sys {
      case Leaf(l) =>
        assert Leaves(sys)[0] == l;
        var named := l.driver.getAlias.value(mem[l.ctx], id, info);
        return named.0, named.1;
      case Composite(cs) =>
        r, st := CompositeAlias(cs, mem, id, info);
    }
  }
}
