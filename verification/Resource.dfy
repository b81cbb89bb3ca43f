// The keyed resource pool: an array of slots refining a bounded injective partial map.

module Resource {
  import opened Basics

  datatype Slot<D> = Slot(data: D, key: int32, busy: bool)

  // ---------- The pool as a sequence of slots ----------

  predicate Holds<D>(s: Slot<D>, key: int32) {
    s.busy && s.key == key
  }

  ghost predicate HasKey<D>(pool: seq<Slot<D>>, key: int32) {
    exists i :: 0 <= i < |pool| && Holds(pool[i], key)
  }

  ghost predicate Full<D>(pool: seq<Slot<D>>) {
    forall i :: 0 <= i < |pool| ==> pool[i].busy
  }

  /** `i` is the lowest free slot. */
  ghost predicate LowestFree<D>(pool: seq<Slot<D>>, i: int) {
    0 <= i < |pool| && !pool[i].busy && forall j :: 0 <= j < i ==> pool[j].busy
  }

  /** No key is held twice. */
  ghost predicate Injective<D>(pool: seq<Slot<D>>) {
    forall i, j :: 0 <= i < j < |pool| && pool[i].busy && pool[j].busy ==> pool[i].key != pool[j].key
  }

  /** No two slots manage the same resource. */
  ghost predicate Separate<D>(pool: seq<Slot<D>>) {
    forall i, j :: 0 <= i < j < |pool| ==> pool[i].data != pool[j].data
  }

  /** The abstract state: which resource each active key is bound to. */
  ghost function Bindings<D>(pool: seq<Slot<D>>): map<int32, D>
    requires Injective(pool)
  {
    map i | 0 <= i < |pool| && pool[i].busy :: pool[i].key := pool[i].data
  }

  /** Claiming the slot `i` for `key`. */
  ghost function Claim<D>(pool: seq<Slot<D>>, i: nat, key: int32): seq<Slot<D>>
    requires i < |pool|
  {
    pool[i := Slot(pool[i].data, key, true)]
  }

  ghost function Free<D>(pool: seq<Slot<D>>, i: nat): seq<Slot<D>>
    requires i < |pool|
  {
    pool[i := pool[i].(busy := false)]
  }

  /** The resources of a pool, busy or not; no operation changes them. */
  ghost function Data<D>(pool: seq<Slot<D>>): (r: seq<D>)
    ensures |r| == |pool| && forall i :: 0 <= i < |pool| ==> r[i] == pool[i].data
  {
    seq(|pool|, i requires 0 <= i < |pool| => pool[i].data)
  }

  // ---------- Refinement of the partial map ----------

  /** Active keys have distinct resources. */
  lemma BindingsInjective<D>(pool: seq<Slot<D>>, k: int32, k': int32)
    requires Injective(pool) && Separate(pool)
    requires k in Bindings(pool) && k' in Bindings(pool) && Bindings(pool)[k] == Bindings(pool)[k']
    ensures k == k'
  {
    var i :| 0 <= i < |pool| && pool[i].busy && pool[i].key == k;
    var j :| 0 <= j < |pool| && pool[j].busy && pool[j].key == k';
  }

  lemma BindingsSnoc<D>(init: seq<Slot<D>>, last: Slot<D>)
    requires Injective(init + [last])
    ensures Injective(init)
    ensures Bindings(init + [last]) == if last.busy then Bindings(init)[last.key := last.data] else Bindings(init)
    ensures last.busy ==> last.key !in Bindings(init)
  {
    var pool, n := init + [last], |init|;
    assert pool[n] == last && forall i :: 0 <= i < n ==> pool[i] == init[i];
  }

  lemma FullSnoc<D>(init: seq<Slot<D>>, last: Slot<D>)
    ensures Full(init + [last]) <==> Full(init) && last.busy
  {
    var pool, n := init + [last], |init|;
    assert pool[n] == last && forall i :: 0 <= i < n ==> pool[i] == init[i];
  }

  /** The map never outgrows the pool, and fills it exactly when every slot is busy. */
  lemma {:induction false} BindingsBounded<D>(pool: seq<Slot<D>>)
    requires Injective(pool)
    ensures |Bindings(pool)| <= |pool|
    ensures |Bindings(pool)| == |pool| <==> Full(pool)
  {
    var n := |pool|;
    if n == 0 {
      assert Bindings(pool) == map[];
    } else {
      var init, last := pool[..n - 1], pool[n - 1];
      assert pool == init + [last];
      BindingsSnoc(init, last);
      BindingsBounded(init);
      FullSnoc(init, last);
    }
  }

  /** Changing one slot leaves the bindings of all other keys alone. */
  lemma OtherKeysKept<D>(pool: seq<Slot<D>>, i: nat, s: Slot<D>, k: int32)
    requires i < |pool| && Injective(pool) && Injective(pool[i := s])
    requires !Holds(pool[i], k) && !Holds(s, k)
    ensures k in Bindings(pool) <==> k in Bindings(pool[i := s])
    ensures k in Bindings(pool) ==> Bindings(pool)[k] == Bindings(pool[i := s])[k]
  {
    var pool' := pool[i := s];
    if k in Bindings(pool) {
      var j :| 0 <= j < |pool| && pool[j].busy && pool[j].key == k;
      assert pool'[j] == pool[j];
    }
    if k in Bindings(pool') {
      var j :| 0 <= j < |pool'| && pool'[j].busy && pool'[j].key == k;
      assert pool'[j] == pool[j];
    }
  }

  /** Claiming a free slot for a key that is not active adds exactly that binding. */
  lemma ClaimBinds<D>(pool: seq<Slot<D>>, i: nat, key: int32)
    requires Injective(pool) && Separate(pool) && LowestFree(pool, i) && !HasKey(pool, key)
    ensures Injective(Claim(pool, i, key)) && Separate(Claim(pool, i, key))
    ensures Bindings(Claim(pool, i, key)) == Bindings(pool)[key := pool[i].data]
    ensures pool[i].data !in Bindings(pool).Values
  {
    var pool' := Claim(pool, i, key);
    forall j | 0 <= j < |pool| && pool[j].busy ensures pool[j].key != key {
      assert !Holds(pool[j], key);
    }
    assert pool'[i].key == key;
    forall k | k != key
      ensures k in Bindings(pool) <==> k in Bindings(pool')
      ensures k in Bindings(pool) ==> Bindings(pool)[k] == Bindings(pool')[k]
    {
      OtherKeysKept(pool, i, pool'[i], k);
    }
  }

  lemma FreeKeeps<D>(pool: seq<Slot<D>>, i: nat)
    requires Injective(pool) && i < |pool|
    ensures Injective(Free(pool, i))
    ensures Separate(pool) ==> Separate(Free(pool, i))
    ensures pool[i].busy ==> pool[i].key !in Bindings(Free(pool, i))
  {
    var pool' := Free(pool, i);
    if pool[i].busy {
      forall j | 0 <= j < |pool'| && pool'[j].busy ensures pool'[j].key != pool[i].key {
        assert i != j && pool'[j] == pool[j];
      }
    }
  }

  /** Freeing a slot removes its binding, if it has one, and no other. */
  lemma FreeUnbinds<D>(pool: seq<Slot<D>>, i: nat)
    requires Injective(pool) && i < |pool|
    ensures Injective(Free(pool, i))
    ensures Bindings(Free(pool, i)) == if pool[i].busy then Bindings(pool) - {pool[i].key} else Bindings(pool)
  {
    FreeKeeps(pool, i);
    var s := pool[i].(busy := false);
    if pool[i].busy {
      var was, now := Bindings(pool) - {pool[i].key}, Bindings(Free(pool, i));
      forall k: int32 | k != pool[i].key
        ensures k in was <==> k in now
        ensures k in was ==> was[k] == now[k]
      {
        OtherKeysKept(pool, i, s, k);
      }
      assert was == now;
    } else {
      assert Free(pool, i) == pool;
    }
  }

  lemma HasKeyIsBound<D>(pool: seq<Slot<D>>, key: int32)
    requires Injective(pool)
    ensures HasKey(pool, key) <==> key in Bindings(pool)
  {
    if HasKey(pool, key) {
      var i :| 0 <= i < |pool| && Holds(pool[i], key);
      assert pool[i].key in Bindings(pool);
    }
    if key in Bindings(pool) {
      var i :| 0 <= i < |pool| && pool[i].busy && pool[i].key == key;
      assert Holds(pool[i], key);
    }
  }

  // ---------- The manager ----------

  class Manager<D(==)> {
    const pool: array<Slot<D>>

    constructor (pool: array<Slot<D>>)
      ensures this.pool == pool
    {
      this.pool := pool;
    }

    ghost predicate Valid()
      reads pool
    {
      Injective(pool[..]) && Separate(pool[..])
    }

    ghost function Bound(): map<int32, D>
      requires Valid()
      reads pool
    {
      Bindings(pool[..])
    }

    method Get(key: int32) returns (r: Option<D>)
      requires Valid()
      ensures r == if key in Bound() then Some(Bound()[key]) else None
    {
      HasKeyIsBound(pool[..], key);
      for i := 0 to pool.Length
        invariant forall j :: 0 <= j < i ==> !Holds(pool[j], key)
      {
        if pool[i].busy && pool[i].key == key {
          assert Holds(pool[..][i], key);
          return Some(pool[i].data);
        }
      }
      return None;
    }

    /** The existing binding, else the lowest free slot, else nothing. */
    method Acquire(key: int32) returns (r: Option<D>)
      requires Valid()
      modifies pool
      ensures Valid()
      ensures old(key in Bound()) ==> r == Some(old(Bound()[key])) && pool[..] == old(pool[..])
      ensures old(key !in Bound()) && r.Some? ==> exists i: nat ::
        && LowestFree(old(pool[..]), i) && r == Some(old(pool[..])[i].data)
        && pool[..] == Claim(old(pool[..]), i, key)
      ensures old(key !in Bound()) && r.Some? ==>
        r.value !in old(Bound()).Values && Bound() == old(Bound())[key := r.value]
      ensures r == None <==> old(key !in Bound() && |Bound()| == pool.Length)
      ensures r == None ==> pool[..] == old(pool[..])
    {
      ghost var before := pool[..];
      HasKeyIsBound(before, key);
      BindingsBounded(before);
      r := Get(key);
      if r.Some? {
        return;
      }
      for i := 0 to pool.Length
        invariant pool[..] == before && forall j :: 0 <= j < i ==> pool[j].busy
      {
        if !pool[i].busy {
          assert LowestFree(before, i);
          ClaimBinds(before, i, key);
          pool[i] := Slot(pool[i].data, key, true);
          assert pool[..] == Claim(before, i, key);
          return Some(pool[i].data);
        }
      }
      return None;
    }

    /** Frees the slot of a resource: at most the binding to that resource goes. */
    method Release(data: D)
      requires Valid()
      modifies pool
      ensures Valid() && Data(pool[..]) == old(Data(pool[..]))
      ensures forall k :: k in Bound() <==> k in old(Bound()) && old(Bound())[k] != data
      ensures forall k :: k in Bound() ==> Bound()[k] == old(Bound())[k]
    {
      ghost var before := pool[..];
      for i := 0 to pool.Length
        invariant pool[..] == before && forall j :: 0 <= j < i ==> pool[j].data != data
      {
        if pool[i].data == data {
          FreeKeeps(before, i);
          FreeUnbinds(before, i);
          BindingsToSlot(before, i);
          pool[i] := pool[i].(busy := false);
          assert pool[..] == Free(before, i);
          return;
        }
      }
      BindingsNotTo(before, data);
    }

    /** Frees the slot that holds a key: exactly that binding goes. */
    method ReleaseKey(key: int32)
      requires Valid()
      modifies pool
      ensures Valid() && Data(pool[..]) == old(Data(pool[..]))
      ensures Bound() == old(Bound()) - {key}
    {
      ghost var before := pool[..];
      HasKeyIsBound(before, key);
      for i := 0 to pool.Length
        invariant pool[..] == before && forall j :: 0 <= j < i ==> !Holds(pool[j], key)
      {
        if pool[i].busy && pool[i].key == key {
          FreeKeeps(before, i);
          FreeUnbinds(before, i);
          pool[i] := pool[i].(busy := false);
          assert pool[..] == Free(before, i);
          return;
        }
      }
      assert Bound() == Bound() - {key};
    }
  }

  /** The keys bound to the resource of slot `i`: its own key when the slot is busy. */
  lemma BindingsToSlot<D>(pool: seq<Slot<D>>, i: nat)
    requires Injective(pool) && Separate(pool) && i < |pool|
    ensures forall k :: k in Bindings(pool) ==> (Bindings(pool)[k] == pool[i].data <==> Holds(pool[i], k))
  {
    forall k | k in Bindings(pool)
      ensures Bindings(pool)[k] == pool[i].data <==> Holds(pool[i], k)
    {
      var j :| 0 <= j < |pool| && pool[j].busy && pool[j].key == k;
      assert Bindings(pool)[k] == pool[j].data;
    }
  }

  lemma BindingsNotTo<D>(pool: seq<Slot<D>>, data: D)
    requires Injective(pool) && forall i :: 0 <= i < |pool| ==> pool[i].data != data
    ensures forall k :: k in Bindings(pool) ==> Bindings(pool)[k] != data
  {}

  // ---------- Runs ----------

  datatype PoolOp<D> = Acquire(key: int32) | Release(data: D) | ReleaseKey(key: int32)

  /** The abstract machine's state and what its last step returned. */
  datatype Turn<D> = Turn(bound: map<int32, D>, result: Option<D>)

  /** The first resource that is not in use. */
  ghost function FirstFree<D>(data: seq<D>, used: set<D>): (r: Option<D>)
    ensures r.Some? ==> r.value in data && r.value !in used
    ensures r.None? ==> forall d :: d in data ==> d in used
  {
    if data == [] then None
    else if data[0] !in used then Some(data[0])
    else FirstFree(data[1..], used)
  }

  /** The abstract machine: partial maps from keys into the resources `data`. */
  ghost function MapStep<D>(data: seq<D>, m: map<int32, D>, op: PoolOp<D>): Turn<D> {
    match op
    case Acquire(k) =>
      if k in m then Turn(m, Some(m[k]))
      else
        (match FirstFree(data, m.Values)
         case None => Turn(m, None)
         case Some(d) => Turn(m[k := d], Some(d)))
    case Release(d) => Turn(map k | k in m && m[k] != d :: m[k], None)
    case ReleaseKey(k) => Turn(m - {k}, None)
  }

  /** The final map of a run, and the results of its steps. */
  ghost function MapRun<D>(data: seq<D>, m: map<int32, D>, ops: seq<PoolOp<D>>): (map<int32, D>, seq<Option<D>>)
    decreases |ops|
  {
    if ops == [] then (m, [])
    else
      var turn := MapStep(data, m, ops[0]);
      var rest := MapRun(data, turn.bound, ops[1..]);
      (rest.0, [turn.result] + rest.1)
  }

  /** Distinct keys hold distinct resources, all of them from `data`. */
  ghost predicate OneToOne<D>(data: seq<D>, m: map<int32, D>) {
    && (forall k, k' :: k in m && k' in m && m[k] == m[k'] ==> k == k')
    && (forall k :: k in m ==> m[k] in data)
  }

  /** In every run of the machine the binding stays one-to-one, an acquired key is bound to what was
      returned, and nothing is returned exactly when the key is absent and every resource is in use. */
  lemma MapStepKeeps<D>(data: seq<D>, m: map<int32, D>, op: PoolOp<D>)
    requires OneToOne(data, m)
    ensures var t := MapStep(data, m, op);
      && OneToOne(data, t.bound)
      && (op.Acquire? ==>
            && (t.result.Some? ==> op.key in t.bound && t.bound[op.key] == t.result.value)
            && (t.result.None? <==> op.key !in m && forall d :: d in data ==> d in m.Values)
            && (forall k :: k != op.key ==> (k in t.bound <==> k in m) && (k in m ==> t.bound[k] == m[k])))
      && (op.Release? ==> op.data !in t.bound.Values)
      && (op.ReleaseKey? ==> op.key !in t.bound)
  {
    var t := MapStep(data, m, op);
    if op.Acquire? && op.key !in m && t.result.Some? {
      forall k | k in m ensures m[k] != t.result.value {
        assert m[k] in m.Values;
      }
    }
  }

  lemma BusyIffBound<D>(pool: seq<Slot<D>>, i: nat)
    requires Injective(pool) && Separate(pool) && i < |pool|
    ensures pool[i].busy <==> pool[i].data in Bindings(pool).Values
  {
    if pool[i].busy {
      assert Bindings(pool)[pool[i].key] == pool[i].data;
    }
    if pool[i].data in Bindings(pool).Values {
      var k :| k in Bindings(pool) && Bindings(pool)[k] == pool[i].data;
      BindingsToSlot(pool, i);
    }
  }

  lemma {:induction false} FirstFreeAt<D>(data: seq<D>, used: set<D>, i: nat)
    requires i < |data| && data[i] !in used && forall j :: 0 <= j < i ==> data[j] in used
    ensures FirstFree(data, used) == Some(data[i])
  {
    if i > 0 {
      FirstFreeAt(data[1..], used, i - 1);
    }
  }

  /** The lowest free slot holds the first resource that is not in use. */
  lemma LowestIsFirstFree<D>(pool: seq<Slot<D>>, i: nat)
    requires Injective(pool) && Separate(pool) && LowestFree(pool, i)
    ensures FirstFree(Data(pool), Bindings(pool).Values) == Some(pool[i].data)
  {
    BusyIffBound(pool, i);
    forall j | 0 <= j < i ensures Data(pool)[j] in Bindings(pool).Values {
      BusyIffBound(pool, j);
    }
    FirstFreeAt(Data(pool), Bindings(pool).Values, i);
  }

  lemma FullHasNoneFree<D>(pool: seq<Slot<D>>)
    requires Injective(pool) && Separate(pool) && Full(pool)
    ensures FirstFree(Data(pool), Bindings(pool).Values) == None
  {
    var free := FirstFree(Data(pool), Bindings(pool).Values);
    if free.Some? {
      var i :| 0 <= i < |pool| && Data(pool)[i] == free.value;
      BusyIffBound(pool, i);
    }
  }

  /** Every run of the manager is the run of the abstract machine, results included. */
  method Execute<D(==)>(mgr: Manager<D>, ops: seq<PoolOp<D>>) returns (results: seq<Option<D>>)
    requires mgr.Valid()
    modifies mgr.pool
    ensures mgr.Valid() && Data(mgr.pool[..]) == old(Data(mgr.pool[..]))
    ensures (mgr.Bound(), results) == MapRun(old(Data(mgr.pool[..])), old(mgr.Bound()), ops)
  {
    results := [];
    var i := 0;
    ghost var data, first := Data(mgr.pool[..]), mgr.Bound();
    ghost var goal := MapRun(data, first, ops);
    while i < |ops|
      invariant 0 <= i <= |ops| && mgr.Valid() && Data(mgr.pool[..]) == data
      invariant goal.0 == MapRun(data, mgr.Bound(), ops[i..]).0
      invariant goal.1 == results + MapRun(data, mgr.Bound(), ops[i..]).1
    {
      assert ops[i..][1..] == ops[i + 1..];
      ghost var rest := MapRun(data, mgr.Bound(), ops[i..]).1;
      var r := Step(mgr, ops[i]);
      Assoc(results, [r], rest[1..]);
      results := results + [r];
      i := i + 1;
    }
    NilUnit(results);
  }

  method Step<D(==)>(mgr: Manager<D>, op: PoolOp<D>) returns (r: Option<D>)
    requires mgr.Valid()
    modifies mgr.pool
    ensures mgr.Valid() && Data(mgr.pool[..]) == old(Data(mgr.pool[..]))
    ensures Turn(mgr.Bound(), r) == MapStep(old(Data(mgr.pool[..])), old(mgr.Bound()), op)
  {
    r := None;
    match op {
      case Acquire(k) => r := AcquireStep(mgr, k);
      case Release(d) => mgr.Release(d);
      case ReleaseKey(k) => mgr.ReleaseKey(k);
    }
  }

  method AcquireStep<D(==)>(mgr: Manager<D>, key: int32) returns (r: Option<D>)
    requires mgr.Valid()
    modifies mgr.pool
    ensures mgr.Valid() && Data(mgr.pool[..]) == old(Data(mgr.pool[..]))
    ensures Turn(mgr.Bound(), r) == MapStep(old(Data(mgr.pool[..])), old(mgr.Bound()), Acquire(key))
  {
    ghost var before := mgr.pool[..];
    BindingsBounded(before);
    r := mgr.Acquire(key);
    if r.None? {
      FullHasNoneFree(before);
    } else if key !in Bindings(before) {
      ghost var i: nat :| LowestFree(before, i) && r == Some(before[i].data) && mgr.pool[..] == Claim(before, i, key);
      LowestIsFirstFree(before, i);
    }
  }
}
