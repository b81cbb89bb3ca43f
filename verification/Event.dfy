// Event dispatch over a listener list that the running callbacks may shrink.

module Events {
  import opened Basics
  import opened LinkedList

  type Listener = Node<Callback>

  /** `hasFunc` is false for a NULL function pointer; `unregisters` is what the function removes when it runs. */
  datatype Callback = Callback(hasFunc: bool, unregisters: seq<Listener>)

  // ---------- What a trigger does to a duplicate-free listener sequence ----------

  ghost function Elements(s: seq<Listener>): set<Listener> {
    set n | n in s
  }

  ghost function Victims(n: Listener): set<Listener> {
    if n.entry.hasFunc then Elements(n.entry.unregisters) else {}
  }

  ghost function AllVictims(ran: seq<Listener>): set<Listener> {
    if ran == [] then {} else Victims(ran[0]) + AllVictims(ran[1..])
  }

  /** What a run of callbacks removes: everything that one of them with a function unregisters. */
  lemma {:induction false} RemovedByRun(ran: seq<Listener>, x: Listener)
    ensures x in AllVictims(ran) <==> exists n :: n in ran && n.entry.hasFunc && x in n.entry.unregisters
  {
    if ran != [] {
      RemovedByRun(ran[1..], x);
      assert forall n :: n in ran <==> n == ran[0] || n in ran[1..];
      assert x in Victims(ran[0]) <==> ran[0].entry.hasFunc && x in ran[0].entry.unregisters;
    }
  }

  ghost function Called(n: Listener): seq<Listener> {
    if n.entry.hasFunc then [n] else []
  }

  /** The calls the loop makes when `pending` is what is left of the list from the current node on. */
  ghost function Walk(pending: seq<Listener>): seq<Listener>
    decreases |pending|
  {
    if |pending| <= 1 then
      if pending == [] then [] else Called(pending[0])
    else
      var gone := Victims(pending[0]);
      if pending[1] in gone then
        // The stored successor is detached: it still runs, and its NULL link ends the loop.
        Called(pending[0]) + Called(pending[1])
      else
        Called(pending[0]) + Walk(Minus(pending[1..], gone))
  }

  /** The promised calls: each listener that is still registered when its turn comes, in order. */
  ghost function Promised(pending: seq<Listener>): seq<Listener>
    decreases |pending|
  {
    if pending == [] then []
    else Called(pending[0]) + Promised(Minus(pending[1..], Victims(pending[0])))
  }

  /** No listener has a function to call. */
  ghost predicate Silent(s: seq<Listener>) {
    forall n :: n in s ==> !n.entry.hasFunc
  }

  /** No callback that gets to run unregisters the node stored as its successor, unless nothing that could
      be called was still to come. */
  ghost predicate SuccessorSafe(pending: seq<Listener>)
    decreases |pending|
  {
    |pending| >= 2 ==>
      var gone := Victims(pending[0]);
      var rest := Minus(pending[1..], gone);
      if pending[1] in gone then Silent([pending[1]] + rest) else SuccessorSafe(rest)
  }

  /** The loop keeps its promise exactly when no callback removes its stored successor too early. */
  lemma {:induction false} WalkIsPromisedIffSuccessorSafe(pending: seq<Listener>)
    requires Distinct(pending)
    ensures Walk(pending) == Promised(pending) <==> SuccessorSafe(pending)
    decreases |pending|
  {
    if |pending| >= 2 {
      var gone := Victims(pending[0]);
      var rest := Minus(pending[1..], gone);
      MinusDistinct(pending[1..], gone);
      if pending[1] in gone {
        MinusMembers(pending[1..], gone);
        SameHead(Called(pending[0]), Called(pending[1]), Promised(rest));
        Stranded(pending[1], rest);
      } else {
        WalkIsPromisedIffSuccessorSafe(rest);
        SameHead(Called(pending[0]), Walk(rest), Promised(rest));
      }
    }
  }

  lemma SameHead(a: seq<Listener>, b: seq<Listener>, c: seq<Listener>)
    ensures a + b == a + c <==> b == c
  {
    if a + b == a + c {
      assert (a + b)[|a|..] == b && (a + c)[|a|..] == c;
    }
  }

  /** A detached successor makes the one call that is left only if there is none to make. */
  lemma Stranded(n: Listener, rest: seq<Listener>)
    requires n !in rest
    ensures Called(n) == Promised(rest) <==> Silent([n] + rest)
  {
    SilentIffNoneCalled(rest);
    PromisedMembers(rest);
    if n.entry.hasFunc {
      assert n in Called(n) && n in [n] + rest;
    } else {
      assert forall x :: x in [n] + rest <==> x == n || x in rest;
    }
  }

  lemma {:induction false} SilentIffNoneCalled(s: seq<Listener>)
    ensures Promised(s) == [] <==> Silent(s)
  {
    PromisedMembers(s);
    if s != [] && Promised(s) == [] {
      MinusNone(s[1..], Victims(s[0]));
      SilentIffNoneCalled(s[1..]);
    } else if s != [] {
      assert Promised(s)[0] in Promised(s);
    }
  }

  /** Callbacks that unregister at most themselves are always safe. */
  lemma {:induction false} SelfRemovalIsSafe(s: seq<Listener>)
    requires Distinct(s) && forall n, x :: n in s && x in n.entry.unregisters ==> x == n
    ensures SuccessorSafe(s) && Walk(s) == Promised(s)
  {
    if |s| >= 2 {
      assert Victims(s[0]) <= {s[0]};
      MinusNone(s[1..], Victims(s[0]));
      SelfRemovalIsSafe(s[1..]);
    }
  }

  /** A callback that unregisters its successor: the successor still runs, and the next listener is lost. */
  lemma SuccessorRemovalMisleads(a: Listener, b: Listener, c: Listener)
    requires Distinct([a, b, c]) && a.entry.hasFunc && b.entry.hasFunc && c.entry.hasFunc
    requires b in a.entry.unregisters && c !in a.entry.unregisters
    ensures Walk([a, b, c]) == [a, b] && Promised([a, b, c]) == [a, c] && !SuccessorSafe([a, b, c])
  {
    var gone := Victims(a);
    assert [a, b, c][1..] == [b, c] && [b, c][1..] == [c] && [c][1..] == [];
    assert Minus([b, c], gone) == Minus([c], gone) == [c];
    NilUnit([c]);
    assert Promised([c]) == [c];
    assert [b, c][0] == b && [b] + [c] == [b, c];
    WalkIsPromisedIffSuccessorSafe([a, b, c]);
    assert [a, b][1] != [a, c][1];
  }

  lemma {:induction false} PromisedMembers(pending: seq<Listener>)
    ensures forall n :: n in Promised(pending) ==> n in pending && n.entry.hasFunc
    decreases |pending|
  {
    if pending != [] {
      MinusMembers(pending[1..], Victims(pending[0]));
      PromisedMembers(Minus(pending[1..], Victims(pending[0])));
    }
  }

  /** `a` comes before `b` in `s`. */
  ghost predicate Before(s: seq<Listener>, a: Listener, b: Listener) {
    exists i, j :: 0 <= i < j < |s| && s[i] == a && s[j] == b
  }

  /** A listener runs iff it is registered with a function and no earlier running listener removes it. */
  lemma {:induction false} PromisedExactly(s: seq<Listener>, n: Listener)
    requires Distinct(s)
    ensures n in Promised(s) <==>
      n in s && n.entry.hasFunc && forall m :: m in Promised(s) && Before(s, m, n) ==> n !in m.entry.unregisters
    decreases |s|
  {
    PromisedMembers(s);
    assert forall m :: m in Promised(s) ==> (n in Victims(m) <==> n in m.entry.unregisters);
    if s != [] && n in s {
      var gone := Victims(s[0]);
      var rest := Minus(s[1..], gone);
      MinusDistinct(s[1..], gone);
      MinusMembers(s[1..], gone);
      PromisedMembers(rest);
      PromisedExactly(rest, n);
      if n != s[0] {
        assert Before(s, s[0], n) by {
          var j := Index(s, n);
          assert s[0] == s[0] && s[j] == n;
        }
        if n !in gone {
          forall m | m in Promised(rest) ensures Before(s, m, n) <==> Before(rest, m, n) {
            MinusKeepsOrder(s[1..], gone, m, n);
            BeforeTail(s, m, n);
          }
        }
      } else {
        assert forall m :: !Before(s, m, n);
      }
    }
  }

  lemma BeforeTail(s: seq<Listener>, a: Listener, b: Listener)
    requires s != [] && a != s[0] && b != s[0]
    ensures Before(s, a, b) <==> Before(s[1..], a, b)
  {
    if Before(s, a, b) {
      var i, j :| 0 <= i < j < |s| && s[i] == a && s[j] == b;
      assert s[1..][i - 1] == a && s[1..][j - 1] == b;
    }
    if Before(s[1..], a, b) {
      var i, j :| 0 <= i < j < |s[1..]| && s[1..][i] == a && s[1..][j] == b;
      assert s[i + 1] == a && s[j + 1] == b;
    }
  }

  lemma {:induction false} MinusKeepsOrder(s: seq<Listener>, gone: set<Listener>, a: Listener, b: Listener)
    requires Distinct(s) && a in s && b in s && a !in gone && b !in gone
    ensures Before(Minus(s, gone), a, b) <==> Before(s, a, b)
  {
    var r := Minus(s, gone);
    MinusMembers(s, gone);
    if a == s[0] {
      assert r[0] == a;
      if b != a {
        var j, k := Index(s, b), Index(r, b);
        assert s[0] == a && s[j] == b && r[k] == b;
        assert Before(s, a, b) && Before(r, a, b);
      } else {
        MinusDistinct(s, gone);
      }
    } else if b == s[0] {
      MinusDistinct(s, gone);
      assert r[0] == b;
      assert !Before(s, a, b) && !Before(r, a, b);
    } else {
      MinusKeepsOrder(s[1..], gone, a, b);
      BeforeTail(s, a, b);
      if s[0] !in gone {
        assert r[1..] == Minus(s[1..], gone);
        BeforeTail(r, a, b);
      }
    }
  }

  /** The promised calls follow registration order, so none is repeated. */
  lemma {:induction false} PromisedInOrder(s: seq<Listener>, i: nat, j: nat)
    requires Distinct(s) && i < j < |Promised(s)|
    ensures Before(s, Promised(s)[i], Promised(s)[j]) && Promised(s)[i] != Promised(s)[j]
    decreases |s|
  {
    var gone := Victims(s[0]);
    var rest := Minus(s[1..], gone);
    MinusDistinct(s[1..], gone);
    var p, q := Promised(s), Promised(rest);
    var c := |Called(s[0])|;
    assert p[j] == q[j - c];
    if i < c {
      HeadBeforeRest(s, gone, p[j]);
    } else {
      assert p[i] == q[i - c];
      PromisedInOrder(rest, i - c, j - c);
      OrderLifts(s, gone, p[i], p[j]);
    }
  }

  lemma HeadBeforeRest(s: seq<Listener>, gone: set<Listener>, n: Listener)
    requires s != [] && Distinct(s) && n in Promised(Minus(s[1..], gone))
    ensures Before(s, s[0], n) && s[0] != n
  {
    PromisedMembers(Minus(s[1..], gone));
    MinusMembers(s[1..], gone);
    var k := Index(s[1..], n);
    assert s[k + 1] == n;
  }

  lemma OrderLifts(s: seq<Listener>, gone: set<Listener>, a: Listener, b: Listener)
    requires s != [] && Distinct(s) && Before(Minus(s[1..], gone), a, b)
    ensures Before(s, a, b)
  {
    var r := Minus(s[1..], gone);
    MinusMembers(s[1..], gone);
    assert a in r && b in r;
    MinusKeepsOrder(s[1..], gone, a, b);
    BeforeTail(s, a, b);
  }

  // ---------- The event ----------

  /** The call trace and the listener list a trigger ends with. */
  datatype Goal = Goal(calls: seq<Listener>, nodes: seq<Listener>)

  class Event {
    var listeners: List<Callback>
    var calls: seq<Listener>  // the calls made so far, oldest first

    constructor ()
      ensures fresh(listeners) && listeners.Valid() && listeners.nodes == [] && calls == []
    {
      listeners := new List();
      calls := [];
    }

    /** Every node of the pool is in the list or fully detached, and callbacks only name pool nodes. */
    ghost predicate Valid(pool: set<Listener>)
      reads this, listeners, listeners.nodes, pool
    {
      && Pooled(listeners, pool)
      && (forall n :: n in pool ==> Elements(n.entry.unregisters) <= pool)
    }

    method Register(cb: Listener, ghost pool: set<Listener>)
      requires Valid(pool) && cb in pool && cb !in listeners.nodes
      modifies listeners, pool
      ensures Valid(pool) && listeners.nodes == old(listeners.nodes) + [cb]
    {
      listeners.Append(cb);
    }

    method Unregister(cb: Listener, ghost pool: set<Listener>)
      requires Valid(pool) && cb in pool
      modifies listeners, pool
      ensures Valid(pool) && listeners.nodes == Minus(old(listeners.nodes), {cb})
    {
      MinusMembers(listeners.nodes, {cb});
      listeners.Remove(cb);
    }

    /** The call through the function pointer. */
    method Call(cb: Listener, ghost pool: set<Listener>)
      requires Valid(pool) && cb in pool && cb.entry.hasFunc
      modifies this`calls, listeners, pool
      ensures Valid(pool) && calls == old(calls) + [cb]
      ensures listeners.nodes == Minus(old(listeners.nodes), Victims(cb))
      ensures forall n :: n in listeners.nodes <==> n in old(listeners.nodes) && n !in cb.entry.unregisters
    {
      MinusMembers(listeners.nodes, Victims(cb));
      calls := calls + [cb];
      var victims := cb.entry.unregisters;
      var i := 0;
      MinusNone(listeners.nodes, {});
      assert Elements(victims[..0]) == {};
      while i < |victims|
        invariant 0 <= i <= |victims| && Valid(pool) && calls == old(calls) + [cb]
        invariant listeners.nodes == Minus(old(listeners.nodes), Elements(victims[..i]))
      {
        assert victims[i] in Elements(victims);
        MinusMinus(old(listeners.nodes), Elements(victims[..i]), {victims[i]});
        assert Elements(victims[..i + 1]) == Elements(victims[..i]) + {victims[i]};
        Unregister(victims[i], pool);
        i := i + 1;
      }
      assert victims[..i] == victims;
    }

    /** The turn of one listener: a NULL function is skipped. */
    method Turn(cb: Listener, ghost pool: set<Listener>)
      requires Valid(pool) && cb in pool
      modifies this`calls, listeners, pool
      ensures Valid(pool) && calls == old(calls) + Called(cb)
      ensures listeners.nodes == Minus(old(listeners.nodes), Victims(cb))
      ensures forall n :: n in listeners.nodes ==> n in old(listeners.nodes) && n !in Victims(cb)
    {
      MinusMembers(listeners.nodes, Victims(cb));
      if cb.entry.hasFunc {
        Call(cb, pool);
      } else {
        MinusNone(listeners.nodes, {});
      }
    }

    /** The safe-iteration loop: it always ends, and makes exactly the calls of `Walk`. */
    method Trigger(ghost pool: set<Listener>)
      requires Valid(pool)
      modifies this`calls, listeners, pool
      ensures Valid(pool)
      ensures calls == old(calls) + Walk(old(listeners.nodes))
      ensures listeners.nodes == Minus(old(listeners.nodes), AllVictims(Walk(old(listeners.nodes))))
    {
      ghost var total := Walk(listeners.nodes);
      ghost var goal := Goal(calls + total, Minus(listeners.nodes, AllVictims(total)));
      ghost var front, pending := [], listeners.nodes;   // the list before the current node and from it on
      ghost var astray := false;                         // the current node has been detached
      NilUnit(pending);
      var curr := listeners.head;
      var storage := if curr == null then null else curr.next;
      while curr != null
        invariant Looping(pool, goal, front, pending, astray, curr, storage)
        decreases if astray then 1 else 2 * |pending|
      {
        Take(pool, goal, front, pending, astray, curr, storage);
        ghost var now: Listener, gone := curr, Victims(curr);
        curr := storage;
        storage := if curr == null then null else curr.next;
        if astray {
          front, pending, astray := listeners.nodes, [], false;
        } else {
          astray := curr != null && curr in gone;
          front, pending := Minus(front + [now], gone), Minus(pending[1..], gone);
        }
      }
      NilUnit(calls);
      MinusNone(listeners.nodes, {});
    }

    /** The body of the loop up to its step to the stored successor. */
    method Take(ghost pool: set<Listener>, ghost goal: Goal, ghost front: seq<Listener>, ghost pending: seq<Listener>,
                ghost astray: bool, curr: Listener, storage: Node?<Callback>)
      requires Looping(pool, goal, front, pending, astray, curr, storage)
      modifies this`calls, listeners, pool
      ensures var next, gone := if storage == null then null else storage.next, Victims(curr);
        if astray then Looping(pool, goal, listeners.nodes, [], false, storage, next)
        else
          && pending != []
          && Looping(pool, goal, Minus(front + [curr], gone), Minus(pending[1..], gone),
                     storage != null && storage in gone, storage, next)
    {
      if astray {
        NilUnit(Called(curr));
        AheadSplits(goal, curr, []);
      } else {
        WalkStep(pending);
        AheadSplits(goal, curr, After(pending));
      }
      Turn(curr, pool);
      if astray {
        NilUnit(listeners.nodes);
      } else {
        Advance(pool, front, pending, storage);
      }
    }

    /** The loop's state: what is still to be called and removed leads to the goal. */
    ghost predicate Looping(pool: set<Listener>, goal: Goal, front: seq<Listener>, pending: seq<Listener>,
                            astray: bool, curr: Node?<Callback>, storage: Node?<Callback>)
      reads this, listeners, listeners.nodes, pool
    {
      && Valid(pool)
      && (astray ==> curr != null && curr in pool && storage == null)
      && (!astray ==> OnTrack(front, pending, curr, storage))
      && Ahead(goal, if astray then Called(curr) else Walk(pending))
    }

    ghost predicate Ahead(goal: Goal, left: seq<Listener>)
      reads this, listeners
    {
      && goal.calls == calls + left
      && goal.nodes == Minus(listeners.nodes, AllVictims(left))
    }

    /** Taking one call off the front of what is left. */
    lemma AheadSplits(goal: Goal, n: Listener, after: seq<Listener>)
      requires Ahead(goal, Called(n) + after)
      ensures goal.calls == (calls + Called(n)) + after
      ensures goal.nodes == Minus(Minus(listeners.nodes, Victims(n)), AllVictims(after))
    {
      Assoc(calls, Called(n), after);
      MinusMinus(listeners.nodes, Victims(n), AllVictims(after));
      if n.entry.hasFunc {
        assert ([n] + after)[1..] == after;
      } else {
        NilUnit(after);
        assert {} + AllVictims(after) == AllVictims(after);
      }
    }

    /** Where the stored successor `next` stands once the current listener has had its turn. */
    lemma Advance(pool: set<Listener>, front: seq<Listener>, pending: seq<Listener>, next: Node?<Callback>)
      requires Valid(pool) && pending != [] && next == SeqAt(pending, 1) && (next != null ==> next in pool)
      requires listeners.nodes == Minus(front + pending, Victims(pending[0]))
      ensures var gone := Victims(pending[0]);
        var rest := Minus(pending[1..], gone);
        if next != null && next in gone
        then next.next == null
        else OnTrack(Minus(front + [pending[0]], gone), rest, next, if next == null then null else next.next)
    {
      var gone := Victims(pending[0]);
      WalkStep(pending);
      MinusSplit(front, pending, gone);
      MinusMembers(front + pending, gone);
      if next != null && next in gone {
        assert next.Detached();
      } else if next != null {
        NextOf(Minus(front + [pending[0]], gone), Minus(pending[1..], gone));
      }
    }

    lemma NextOf(front: seq<Listener>, pending: seq<Listener>)
      requires listeners.Valid() && listeners.nodes == front + pending && pending != []
      ensures pending[0].next == SeqAt(pending, 1)
    {
      var k := |front|;
      assert listeners.nodes[k] == pending[0];
      if |pending| > 1 {
        assert listeners.nodes[k + 1] == pending[1];
      } else {
        assert k == |listeners.nodes| - 1;
      }
    }

    ghost predicate OnTrack(front: seq<Listener>, pending: seq<Listener>, curr: Node?<Callback>, storage: Node?<Callback>)
      reads this, listeners
    {
      && listeners.nodes == front + pending
      && curr == SeqAt(pending, 0) && storage == SeqAt(pending, 1)
    }
  }

  /** The calls that follow the one of the current node. */
  ghost function After(pending: seq<Listener>): seq<Listener>
    requires pending != []
  {
    var gone := Victims(pending[0]);
    if |pending| > 1 && pending[1] in gone then Called(pending[1]) else Walk(Minus(pending[1..], gone))
  }

  lemma WalkStep(pending: seq<Listener>)
    requires pending != []
    ensures Walk(pending) == Called(pending[0]) + After(pending)
    ensures (|pending| > 1 && pending[1] in Victims(pending[0]))
      || SeqAt(Minus(pending[1..], Victims(pending[0])), 0) == SeqAt(pending, 1)
  {
    NilUnit(Called(pending[0]));
  }

  /** Removal splits a list into what is left before and after the current node. */
  lemma MinusSplit(front: seq<Listener>, pending: seq<Listener>, gone: set<Listener>)
    requires pending != []
    ensures Minus(front + pending, gone) == Minus(front + [pending[0]], gone) + Minus(pending[1..], gone)
  {
    assert front + pending == front + [pending[0]] + pending[1..];
    MinusAppend(front + [pending[0]], pending[1..], gone);
  }
}
