// The intrusive doubly linked list: heap nodes refining a sequence.

module LinkedList {
  import opened Basics

  /** A link cell and a direct reference to the structure it is embedded in. */
  class Node<T> {
    var next: Node?<T>
    var prev: Node?<T>
    const entry: T

    constructor (entry: T)
      ensures Detached() && this.entry == entry
    {
      this.entry := entry;
      next, prev := null, null;
    }

    ghost predicate Detached()
      reads this
    {
      next == null && prev == null
    }
  }

  ghost predicate Distinct<T>(s: seq<T>) {
    forall i, j :: 0 <= i < j < |s| ==> s[i] != s[j]
  }

  /** `s` without its elements that are in `gone`, order kept. */
  ghost function Minus<T>(s: seq<T>, gone: set<T>): (r: seq<T>)
    ensures |r| <= |s|
  {
    if s == [] then []
    else if s[0] in gone then Minus(s[1..], gone)
    else [s[0]] + Minus(s[1..], gone)
  }

  lemma {:induction false} MinusMembers<T>(s: seq<T>, gone: set<T>)
    ensures forall x :: x in Minus(s, gone) ==> x in s && x !in gone
    ensures forall x :: x in s && x !in gone ==> x in Minus(s, gone)
  {
    if s != [] {
      MinusMembers(s[1..], gone);
    }
  }

  lemma {:induction false} MinusDistinct<T>(s: seq<T>, gone: set<T>)
    requires Distinct(s)
    ensures Distinct(Minus(s, gone))
  {
    if s != [] {
      MinusDistinct(s[1..], gone);
      MinusMembers(s[1..], gone);
    }
  }

  lemma {:induction false} MinusNone<T>(s: seq<T>, gone: set<T>)
    requires forall x :: x in s ==> x !in gone
    ensures Minus(s, gone) == s
  {
    if s != [] {
      assert s[0] in s;
      MinusNone(s[1..], gone);
    }
  }

  lemma {:induction false} MinusAppend<T>(a: seq<T>, b: seq<T>, gone: set<T>)
    ensures Minus(a + b, gone) == Minus(a, gone) + Minus(b, gone)
  {
    if a == [] {
      assert a + b == b;
    } else {
      assert (a + b)[1..] == a[1..] + b;
      MinusAppend(a[1..], b, gone);
    }
  }

  lemma {:induction false} MinusMinus<T>(s: seq<T>, a: set<T>, b: set<T>)
    ensures Minus(Minus(s, a), b) == Minus(s, a + b)
  {
    if s != [] {
      MinusMinus(s[1..], a, b);
      if s[0] !in a {
        assert Minus(s, a)[1..] == Minus(s[1..], a);
      }
    }
  }

  ghost function CutOut<T>(s: seq<T>, k: nat): (r: seq<T>)
    requires k < |s|
    ensures |r| == |s| - 1
    ensures forall i :: 0 <= i < |r| ==> r[i] == s[if i < k then i else i + 1]
  {
    s[..k] + s[k + 1..]
  }

  lemma SplitAt<T>(s: seq<T>, k: nat)
    requires k < |s|
    ensures s == s[..k] + ([s[k]] + s[k + 1..])
    ensures Distinct(s) ==> s[k] !in s[..k] && s[k] !in s[k + 1..]
  {}

  lemma MinusBetween<T>(a: seq<T>, x: T, b: seq<T>)
    requires x !in a && x !in b
    ensures Minus(a + ([x] + b), {x}) == a + b
  {
    MinusAppend(a, [x] + b, {x});
    MinusNone(a, {x});
    MinusNone(b, {x});
    assert ([x] + b)[1..] == b;
  }

  /** Removing one element of a duplicate-free sequence cuts it out at its index. */
  lemma MinusAt<T>(s: seq<T>, k: nat)
    requires k < |s| && Distinct(s)
    ensures Minus(s, {s[k]}) == CutOut(s, k)
  {
    SplitAt(s, k);
    MinusBetween(s[..k], s[k], s[k + 1..]);
  }

  function Reverse<T>(s: seq<T>): (r: seq<T>)
    ensures |r| == |s|
  {
    if s == [] then [] else Reverse(s[1..]) + [s[0]]
  }

  lemma {:induction false} ReversedAt<T>(s: seq<T>, k: nat)
    requires k < |s|
    ensures Reverse(s)[k] == s[|s| - 1 - k]
  {
    if k < |s| - 1 {
      ReversedAt(s[1..], k);
    }
  }

  ghost function Index<T>(s: seq<T>, x: T): (k: nat)
    requires x in s
    ensures k < |s| && s[k] == x
  {
    var k :| 0 <= k < |s| && s[k] == x;
    k
  }

  ghost function SeqAt<T>(s: seq<Node<T>>, i: int): Node?<T> {
    if 0 <= i < |s| then s[i] else null
  }

  lemma ReverseFrom<T>(s: seq<T>, k: nat)
    requires k < |s|
    ensures Reverse(s[k..]) == Reverse(s[k + 1..]) + [s[k]]
  {
    assert s[k..][1..] == s[k + 1..];
  }

  class List<T> {
    var head: Node?<T>
    var tail: Node?<T>
    var count: nat
    ghost var nodes: seq<Node<T>>

    ghost predicate Valid()
      reads this, nodes
    {
      Distinct(nodes) && Linked()
    }

    /** Head, tail, count and every link agree with `nodes`. */
    ghost predicate Linked()
      reads this, nodes
    {
      && count == |nodes|
      && (nodes == [] ==> head == null && tail == null)
      && (nodes != [] ==>
            && head == nodes[0] && nodes[0].prev == null
            && tail == nodes[|nodes| - 1] && nodes[|nodes| - 1].next == null)
      && (forall i {:trigger nodes[i].next} :: 0 <= i < |nodes| - 1 ==> nodes[i].next == nodes[i + 1])
      && (forall i {:trigger nodes[i].prev} :: 0 < i < |nodes| ==> nodes[i].prev == nodes[i - 1])
    }

    constructor ()
      ensures Valid() && nodes == []
    {
      count, head, tail := 0, null, null;
      nodes := [];
    }

    method Append(node: Node<T>)
      requires Valid() && node !in nodes
      modifies this, nodes, node
      ensures Valid() && nodes == old(nodes) + [node]
    {
      node.next := null;
      node.prev := tail;
      if count == 0 {
        head := node;
        tail := node;
      } else {
        tail.next := node;
        tail := node;
      }
      count := count + 1;
      nodes := nodes + [node];
    }

    method Prepend(node: Node<T>)
      requires Valid() && node !in nodes
      modifies this, nodes, node
      ensures Valid() && nodes == [node] + old(nodes)
    {
      node.prev := null;
      node.next := head;
      if count == 0 {
        head := node;
        tail := node;
      } else {
        head.prev := node;
        head := node;
      }
      count := count + 1;
      nodes := [node] + nodes;
    }

    /** The links of `s` with its k-th node bridged over. */
    ghost predicate Bridged(s: seq<Node<T>>, k: nat)
      reads this, s
    {
      && k < |s|
      && (|s| == 1 ==> head == null && tail == null)
      && (|s| > 1 ==>
            && (var first := s[if k == 0 then 1 else 0]; head == first && first.prev == null)
            && (var last := s[if k == |s| - 1 then k - 1 else |s| - 1]; tail == last && last.next == null))
      && (0 < k < |s| - 1 ==> s[k - 1].next == s[k + 1] && s[k + 1].prev == s[k - 1])
      && (forall i {:trigger s[i].next} :: 0 <= i < |s| - 1 && i != k && i + 1 != k ==> s[i].next == s[i + 1])
      && (forall i {:trigger s[i].prev} :: 0 < i < |s| && i != k && i - 1 != k ==> s[i].prev == s[i - 1])
    }

    lemma BridgedIsLinked(s: seq<Node<T>>, k: nat)
      requires Bridged(s, k) && nodes == CutOut(s, k) && count == |nodes|
      ensures Linked()
    {
    }

    /** No membership check is made: the node is in this list, or in none. */
    method Remove(node: Node<T>)
      requires Valid() && (node in nodes || node.Detached())
      modifies this, nodes
      ensures Valid() && nodes == Minus(old(nodes), {node}) && node.Detached()
      ensures old(node !in nodes) ==> unchanged(this) && forall n :: n in nodes ==> unchanged(n)
    {
      if node !in nodes {
        MinusNone(nodes, {node});
      }
      ghost var s := nodes;
      ghost var k := if node in s then Index(s, node) else |s|;
      if count == 0 {
        return;
      }
      if node.prev == null {
        if head != node {
          return;
        }
        head := node.next;
      } else {
        node.prev.next := node.next;
      }
      if node.next == null {
        if tail != node {
          return;
        }
        tail := node.prev;
      } else {
        node.next.prev := node.prev;
      }
      assert Bridged(s, k);
      node.next := null;
      node.prev := null;
      if count > 0 {
        count := count - 1;
      }
      nodes := CutOut(s, k);
      BridgedIsLinked(s, k);
      MinusAt(s, k);
      MinusDistinct(s, {node});
    }

    method PopHead() returns (node: Node?<T>)
      requires Valid()
      modifies this, nodes
      ensures Valid()
      ensures old(nodes) == [] ==> node == null && nodes == []
      ensures old(nodes) != [] ==> node == old(nodes)[0] && nodes == old(nodes)[1..] && node.Detached()
    {
      node := head;
      if node != null {
        MinusAt(nodes, 0);
        Remove(node);
      }
    }

    method PopTail() returns (node: Node?<T>)
      requires Valid()
      modifies this, nodes
      ensures Valid()
      ensures old(nodes) == [] ==> node == null && nodes == []
      ensures old(nodes) != [] ==>
        var last := |old(nodes)| - 1;
        node == old(nodes)[last] && nodes == old(nodes)[..last] && node.Detached()
    {
      node := tail;
      if node != null {
        MinusAt(nodes, |nodes| - 1);
        Remove(node);
      }
    }

    /** The plain loop macro: a forward walk meets exactly the nodes, in order. */
    method Forward() returns (seen: seq<Node<T>>)
      requires Valid()
      ensures seen == nodes
    {
      seen := [];
      var pos := head;
      while pos != null
        invariant |seen| <= |nodes| && seen == nodes[..|seen|] && pos == SeqAt(nodes, |seen|)
        decreases |nodes| - |seen|
      {
        seen := seen + [pos];
        pos := pos.next;
      }
    }

    /** A backward walk meets the nodes in the reverse order. */
    method Backward() returns (seen: seq<Node<T>>)
      requires Valid()
      ensures seen == Reverse(nodes)
    {
      seen := [];
      var pos := tail;
      while pos != null
        invariant |seen| <= |nodes| && pos == SeqAt(nodes, |nodes| - |seen| - 1)
        invariant seen == Reverse(nodes[|nodes| - |seen|..])
        decreases |nodes| - |seen|
      {
        ReverseFrom(nodes, |nodes| - |seen| - 1);
        seen := seen + [pos];
        pos := pos.prev;
      }
      assert nodes[0..] == nodes;
    }
  }

  // ---------- Runs of list operations ----------

  datatype ListOp<T> = Append(node: Node<T>) | Prepend(node: Node<T>) | Remove(node: Node<T>) | PopHead | PopTail

  /** What one operation does to the sequence. */
  ghost function Apply<T>(op: ListOp<T>, s: seq<Node<T>>): seq<Node<T>> {
    match op
    case Append(n) => s + [n]
    case Prepend(n) => [n] + s
    case Remove(n) => Minus(s, {n})
    case PopHead => if s == [] then [] else s[1..]
    case PopTail => if s == [] then [] else s[..|s| - 1]
  }

  /** The node that one operation returns. */
  ghost function Returned<T>(op: ListOp<T>, s: seq<Node<T>>): Node?<T> {
    match op
    case PopHead => SeqAt(s, 0)
    case PopTail => SeqAt(s, |s| - 1)
    case _ => null
  }

  ghost function ReturnedAll<T>(ops: seq<ListOp<T>>, s: seq<Node<T>>): seq<Node?<T>> {
    if ops == [] then [] else [Returned(ops[0], s)] + ReturnedAll(ops[1..], Apply(ops[0], s))
  }

  ghost function ApplyAll<T>(ops: seq<ListOp<T>>, s: seq<Node<T>>): seq<Node<T>> {
    if ops == [] then s else ApplyAll(ops[1..], Apply(ops[0], s))
  }

  /** The caller's side: only nodes that are in no list are inserted. */
  ghost predicate Runnable<T>(ops: seq<ListOp<T>>, s: seq<Node<T>>) {
    ops != [] ==>
      && (ops[0].Append? || ops[0].Prepend? ==> ops[0].node !in s)
      && Runnable(ops[1..], Apply(ops[0], s))
  }

  /** Every node of the pool is in the list or detached. */
  ghost predicate Pooled<T>(list: List<T>, pool: set<Node<T>>)
    reads list, list.nodes, pool
  {
    && list.Valid()
    && (forall n :: n in list.nodes ==> n in pool)
    && (forall n :: n in pool ==> n in list.nodes || n.Detached())
  }

  ghost predicate Names<T>(op: ListOp<T>, pool: set<Node<T>>) {
    op.Append? || op.Prepend? || op.Remove? ==> op.node in pool
  }

  method Step<T>(list: List<T>, op: ListOp<T>, ghost pool: set<Node<T>>) returns (r: Node?<T>)
    requires Pooled(list, pool) && Names(op, pool)
    requires op.Append? || op.Prepend? ==> op.node !in list.nodes
    modifies list, pool
    ensures Pooled(list, pool) && list.nodes == Apply(op, old(list.nodes)) && r == Returned(op, old(list.nodes))
  {
    r := null;
    match op {
      case Append(n) => list.Append(n);
      case Prepend(n) => list.Prepend(n);
      case Remove(n) =>
        MinusMembers(list.nodes, {n});
        list.Remove(n);
      case PopHead => r := list.PopHead();
      case PopTail => r := list.PopTail();
    }
  }

  /** Every run of operations over a pool of nodes refines the same run over the sequence, results included. */
  method Execute<T>(list: List<T>, ops: seq<ListOp<T>>, ghost pool: set<Node<T>>) returns (results: seq<Node?<T>>)
    requires Pooled(list, pool) && Runnable(ops, list.nodes)
    requires forall i :: 0 <= i < |ops| ==> Names(ops[i], pool)
    modifies list, pool
    ensures Pooled(list, pool) && list.nodes == ApplyAll(ops, old(list.nodes))
    ensures results == ReturnedAll(ops, old(list.nodes))
  {
    var i := 0;
    results := [];
    ghost var all := ReturnedAll(ops, list.nodes);
    while i < |ops|
      invariant 0 <= i <= |ops|
      invariant Pooled(list, pool) && Runnable(ops[i..], list.nodes)
      invariant ApplyAll(ops[i..], list.nodes) == ApplyAll(ops, old(list.nodes))
      invariant all == results + ReturnedAll(ops[i..], list.nodes)
    {
      assert ops[i..][1..] == ops[i + 1..];
      ghost var rest := ReturnedAll(ops[i + 1..], Apply(ops[i], list.nodes));
      var r := Step(list, ops[i], pool);
      Assoc(results, [r], rest);
      results := results + [r];
      i := i + 1;
    }
    NilUnit(results);
  }
}
