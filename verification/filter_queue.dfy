/** The intrusive queue of event filters: a doubly linked list of waiting nodes, each
    with an active flag. An event goes to the first node, in registration order,
    whose filter accepts it; waiters can be cancelled one at a time or all at once.
    Every section the source runs under the queue's mutex is one transition here. */
module FilterQueues {
  import opened Wrappers
  import opened EventNames
  import opened Events

  type NodeId = nat

  datatype Link = Link(prev: Option<NodeId>, next: Option<NodeId>)

  /** The fields of a node the queue reads and writes: its neighbours, its active
      flag, and whether it has been given to the queue (its queue pointer is set). */
  datatype NodeState = NodeState(link: Link, active: bool, owned: bool)

  /** A new node is active, has no neighbours and belongs to no queue. */
  const FreshNode: NodeState := NodeState(Link(None, None), true, false)

  /** The queue's head and tail, and every node created so far. */
  datatype FilterQueue = FilterQueue(head: Option<NodeId>, tail: Option<NodeId>, nodes: map<NodeId, NodeState>)

  /** A new queue is empty. */
  const EmptyQueue: FilterQueue := FilterQueue(None, None, map[])

  predicate Distinct(s: seq<NodeId>)
  {
    forall i, j :: 0 <= i < j < |s| ==> s[i] != s[j]
  }

  function PrevOf(order: seq<NodeId>, j: int): Option<NodeId>
    requires 0 <= j < |order|
  {
    if j > 0 then Some(order[j - 1]) else None
  }

  function NextOf(order: seq<NodeId>, j: int): Option<NodeId>
    requires 0 <= j < |order|
  {
    if j + 1 < |order| then Some(order[j + 1]) else None
  }

  /** The pointers link exactly the nodes of `order`, front to back: the head is the
      first, the tail the last, and each node's neighbours are the ones beside it. */
  predicate Links(q: FilterQueue, order: seq<NodeId>)
  {
    && Distinct(order)
    && (forall j :: 0 <= j < |order| ==> order[j] in q.nodes)
    && (forall j {:trigger q.nodes[order[j]]} :: 0 <= j < |order| ==> q.nodes[order[j]].link == Link(PrevOf(order, j), NextOf(order, j)))
    && q.head == (if |order| == 0 then None else Some(order[0]))
    && q.tail == (if |order| == 0 then None else Some(order[|order| - 1]))
  }

  /** A well-formed queue: linked in `order`, and every queued node is active and
      owned by the queue ("queued implies active"; the converse does not hold). */
  predicate Valid(q: FilterQueue, order: seq<NodeId>)
  {
    Links(q, order) && QueuedFlags(q, order)
  }

  predicate QueuedFlags(q: FilterQueue, order: seq<NodeId>)
  {
    forall j :: 0 <= j < |order| ==> order[j] in q.nodes && q.nodes[order[j]].active && q.nodes[order[j]].owned
  }

  lemma EmptyQueueValid()
    ensures Valid(EmptyQueue, [])
  {
  }

  function SetNext(nodes: map<NodeId, NodeState>, a: NodeId, v: Option<NodeId>): map<NodeId, NodeState>
    requires a in nodes
  {
    nodes[a := nodes[a].(link := nodes[a].link.(next := v))]
  }

  function SetPrev(nodes: map<NodeId, NodeState>, a: NodeId, v: Option<NodeId>): map<NodeId, NodeState>
    requires a in nodes
  {
    nodes[a := nodes[a].(link := nodes[a].link.(prev := v))]
  }

  /** `enqueue_with_lock`: the node records the queue, becomes the head of an empty
      queue, and is linked after the old tail, which it replaces. */
  function Enqueue(q: FilterQueue, n: NodeId): FilterQueue
    requires n in q.nodes && (q.tail.Some? ==> q.tail.value in q.nodes)
  {
    var nodes := q.nodes[n := q.nodes[n].(owned := true)];
    var head := if q.head.None? then Some(n) else q.head;
    if q.tail.Some? then
      var withPrev := SetPrev(nodes, n, q.tail);
      FilterQueue(head, Some(n), SetNext(withPrev, q.tail.value, Some(n)))
    else
      FilterQueue(head, Some(n), nodes)
  }

  /** The pointers `dequeue_with_lock` follows are valid. */
  predicate CanDequeue(q: FilterQueue, n: NodeId)
  {
    && n in q.nodes
    && (q.nodes[n].link.prev.Some? ==> q.nodes[n].link.prev.value in q.nodes)
    && (q.nodes[n].link.next.Some? ==> q.nodes[n].link.next.value in q.nodes)
  }

  /** `dequeue_with_lock`: the head and tail move off the node, and its neighbours
      are linked to each other. The node's own pointers are left as they were. */
  function Dequeue(q: FilterQueue, n: NodeId): (r: FilterQueue)
    requires CanDequeue(q, n)
    ensures r.nodes.Keys == q.nodes.Keys
  {
    var l := q.nodes[n].link;
    var head := if q.head == Some(n) then l.next else q.head;
    var tail := if q.tail == Some(n) then l.prev else q.tail;
    var nodes1 := if l.prev.Some? then SetNext(q.nodes, l.prev.value, q.nodes[n].link.next) else q.nodes;
    var l1 := nodes1[n].link;
    var nodes2 := if l1.next.Some? && l1.next.value in nodes1 then SetPrev(nodes1, l1.next.value, l1.prev) else nodes1;
    FilterQueue(head, tail, nodes2)
  }

  function RemoveAt(order: seq<NodeId>, i: int): (r: seq<NodeId>)
    requires 0 <= i < |order|
    ensures |r| == |order| - 1
    ensures forall j :: 0 <= j < |r| ==> r[j] == (if j < i then order[j] else order[j + 1])
  {
    order[..i] + order[i + 1..]
  }

  /** What `r` looks like after `n` has been put behind `order` in `q`: `n` is owned,
      points back at the old tail and is the new tail (and the head if the queue was
      empty), the old tail points forward at it, and every other node is as it was. */
  predicate Appended(q: FilterQueue, r: FilterQueue, order: seq<NodeId>, n: NodeId)
  {
    && n in q.nodes
    && r.nodes.Keys == q.nodes.Keys
    && r.head == (if |order| == 0 then Some(n) else q.head)
    && r.tail == Some(n)
    && r.nodes[n] == q.nodes[n].(link := Link(q.tail, None), owned := true)
    && (|order| > 0 ==> (order[|order| - 1] in q.nodes
          && r.nodes[order[|order| - 1]] == q.nodes[order[|order| - 1]].(link := Link(PrevOf(order, |order| - 1), Some(n)))))
    && (forall m :: (m in q.nodes && m != n && (|order| > 0 ==> m != order[|order| - 1])
          ==> r.nodes[m] == q.nodes[m]))
  }

  lemma EnqueueNodes(q: FilterQueue, order: seq<NodeId>, n: NodeId)
    requires Links(q, order) && n in q.nodes && n !in order && q.nodes[n].link == Link(None, None)
    ensures q.tail.Some? ==> q.tail.value in q.nodes
    ensures Appended(q, Enqueue(q, n), order, n)
  {
    if |order| > 0 {
      assert q.nodes[order[|order| - 1]].link == Link(PrevOf(order, |order| - 1), NextOf(order, |order| - 1));
    }
  }

  /** Once `n` is appended, the nodes are linked in `order + [n]`. */
  lemma AppendedValid(q: FilterQueue, r: FilterQueue, order: seq<NodeId>, n: NodeId)
    requires Valid(q, order) && n !in order && Appended(q, r, order, n) && q.nodes[n].active
    ensures Valid(r, order + [n])
  {
    var o := order + [n];
    var last := |order| - 1;
    forall j | 0 <= j < |o|
      ensures o[j] in r.nodes && r.nodes[o[j]].link == Link(PrevOf(o, j), NextOf(o, j))
      ensures r.nodes[o[j]].active && r.nodes[o[j]].owned
    {
      if j == |order| {
      } else if j == last {
        assert o[j] == order[j];
      } else {
        assert o[j] == order[j];
        assert order[j] != order[last];
        assert q.nodes[order[j]].link == Link(PrevOf(order, j), NextOf(order, j));
      }
    }
    forall a, b | 0 <= a < b < |o|
      ensures o[a] != o[b]
    {
      if b == |order| {
        assert o[a] == order[a];
      }
    }
  }

  /** Enqueueing a fresh node appends it at the back; the other nodes keep their
      flags. */
  lemma EnqueueAppends(q: FilterQueue, order: seq<NodeId>, n: NodeId)
    requires Valid(q, order) && n in q.nodes && q.nodes[n] == FreshNode
    ensures n !in order && (q.tail.Some? ==> q.tail.value in q.nodes)
    ensures Valid(Enqueue(q, n), order + [n]) && Appended(q, Enqueue(q, n), order, n)
  {
    assert n !in order;
    EnqueueNodes(q, order, n);
    AppendedValid(q, Enqueue(q, n), order, n);
  }

  /** The effect of dequeueing `order[i]` on each node: its predecessor now points
      forward past it, its successor back past it, and nothing else changes. */
  lemma DequeueNodes(q: FilterQueue, order: seq<NodeId>, i: int)
    requires Links(q, order) && 0 <= i < |order|
    ensures CanDequeue(q, order[i]) && Unlinked(q, Dequeue(q, order[i]), order, i)
  {
    var n := order[i];
    assert q.nodes[n].link == Link(PrevOf(order, i), NextOf(order, i));
    if i > 0 {
      assert q.nodes[order[i - 1]].link == Link(PrevOf(order, i - 1), NextOf(order, i - 1));
      assert order[i - 1] != n;
    }
    if i + 1 < |order| {
      assert q.nodes[order[i + 1]].link == Link(PrevOf(order, i + 1), NextOf(order, i + 1));
      assert order[i + 1] != n;
      assert i > 0 ==> order[i + 1] != order[i - 1];
    }
  }

  /** What `r` looks like after `order[i]` has been taken out of `q`: the head and
      tail have moved off it, the nodes beside it point at each other, and every
      other node is as it was. */
  predicate Unlinked(q: FilterQueue, r: FilterQueue, order: seq<NodeId>, i: int)
    requires 0 <= i < |order|
  {
    && r.nodes.Keys == q.nodes.Keys
    && r.head == (if i == 0 then NextOf(order, 0) else q.head)
    && r.tail == (if i == |order| - 1 then PrevOf(order, i) else q.tail)
    && (i > 0 ==> (order[i - 1] in q.nodes
          && r.nodes[order[i - 1]] == q.nodes[order[i - 1]].(link := Link(PrevOf(order, i - 1), NextOf(order, i)))))
    && (i + 1 < |order| ==> (order[i + 1] in q.nodes
          && r.nodes[order[i + 1]] == q.nodes[order[i + 1]].(link := Link(PrevOf(order, i), NextOf(order, i + 1)))))
    && (forall m :: (m in q.nodes && (i > 0 ==> m != order[i - 1]) && (i + 1 < |order| ==> m != order[i + 1])
          ==> r.nodes[m] == q.nodes[m]))
  }

  lemma RemoveAtDistinct(order: seq<NodeId>, i: int)
    requires Distinct(order) && 0 <= i < |order|
    ensures Distinct(RemoveAt(order, i))
  {
    var o := RemoveAt(order, i);
    forall a, b | 0 <= a < b < |o|
      ensures o[a] != o[b]
    {
      var a' := if a < i then a else a + 1;
      var b' := if b < i then b else b + 1;
      assert o[a] == order[a'] && o[b] == order[b'];
    }
  }

  /** Once `order[i]` is unlinked, each remaining node's neighbours are the ones
      beside it in the shortened order. */
  lemma UnlinkedPosition(q: FilterQueue, r: FilterQueue, order: seq<NodeId>, i: int, j: int)
    requires Links(q, order) && 0 <= i < |order| && 0 <= j < |order| - 1
    requires Unlinked(q, r, order, i)
    ensures RemoveAt(order, i)[j] in r.nodes
    ensures r.nodes[RemoveAt(order, i)[j]].link == Link(PrevOf(RemoveAt(order, i), j), NextOf(RemoveAt(order, i), j))
  {
    var o := RemoveAt(order, i);
    var k := if j < i then j else j + 1;
    assert o[j] == order[k];
    assert q.nodes[order[k]].link == Link(PrevOf(order, k), NextOf(order, k));
    if k != i - 1 && k != i + 1 {
      assert i > 0 ==> order[k] != order[i - 1];
      assert i + 1 < |order| ==> order[k] != order[i + 1];
    }
  }

  /** Taking `order[i]` out leaves every other queued node, and only those. */
  lemma RemoveAtMembers(order: seq<NodeId>, i: int)
    requires Distinct(order) && 0 <= i < |order|
    ensures forall x :: x in RemoveAt(order, i) <==> x in order && x != order[i]
  {
    var o := RemoveAt(order, i);
    forall x | x in order && x != order[i]
      ensures x in o
    {
      var k :| 0 <= k < |order| && order[k] == x;
      assert o[if k < i then k else k - 1] == x;
    }
  }

  /** Unlinking changes pointers only: every node keeps its flags, and a node that
      was not queued is untouched. */
  lemma UnlinkedFrame(q: FilterQueue, r: FilterQueue, order: seq<NodeId>, i: int)
    requires Links(q, order) && 0 <= i < |order| && Unlinked(q, r, order, i)
    ensures forall m :: m in q.nodes ==> r.nodes[m].active == q.nodes[m].active && r.nodes[m].owned == q.nodes[m].owned
    ensures forall m :: m in q.nodes && m !in order ==> r.nodes[m] == q.nodes[m]
  {
  }

  lemma UnlinkedLinks(q: FilterQueue, r: FilterQueue, order: seq<NodeId>, i: int)
    requires Links(q, order) && 0 <= i < |order|
    requires Unlinked(q, r, order, i)
    ensures Links(r, RemoveAt(order, i))
  {
    RemoveAtDistinct(order, i);
    forall j | 0 <= j < |order| - 1
      ensures RemoveAt(order, i)[j] in r.nodes
      ensures r.nodes[RemoveAt(order, i)[j]].link == Link(PrevOf(RemoveAt(order, i), j), NextOf(RemoveAt(order, i), j))
    {
      UnlinkedPosition(q, r, order, i, j);
    }
  }

  /** Dequeueing a queued node removes exactly it; the others keep their order and
      their flags. */
  lemma DequeueRemoves(q: FilterQueue, order: seq<NodeId>, i: int)
    requires Links(q, order) && 0 <= i < |order|
    ensures CanDequeue(q, order[i])
    ensures Links(Dequeue(q, order[i]), RemoveAt(order, i)) && Unlinked(q, Dequeue(q, order[i]), order, i)
  {
    DequeueNodes(q, order, i);
    UnlinkedLinks(q, Dequeue(q, order[i]), order, i);
  }

  /** Every pointer a node holds leads to a node: none dangles. */
  predicate LinksClosed(q: FilterQueue)
  {
    forall m :: m in q.nodes ==> (
      && (q.nodes[m].link.prev.Some? ==> q.nodes[m].link.prev.value in q.nodes)
      && (q.nodes[m].link.next.Some? ==> q.nodes[m].link.next.value in q.nodes))
  }

  /** Enqueueing and dequeueing only ever store pointers to existing nodes. */
  lemma EnqueueKeepsClosed(q: FilterQueue, n: NodeId)
    requires LinksClosed(q) && n in q.nodes && (q.tail.Some? ==> q.tail.value in q.nodes)
    ensures LinksClosed(Enqueue(q, n))
  {
  }

  lemma DequeueKeepsClosed(q: FilterQueue, n: NodeId)
    requires LinksClosed(q) && n in q.nodes
    ensures CanDequeue(q, n) && LinksClosed(Dequeue(q, n))
  {
  }

  /** Every queued node is a node of the queue, active and owned. */
  lemma QueuedMembers(q: FilterQueue, order: seq<NodeId>)
    requires Valid(q, order)
    ensures forall m :: m in order ==> m in q.nodes && q.nodes[m].active && q.nodes[m].owned
  {
    forall m | m in order
      ensures m in q.nodes && q.nodes[m].active && q.nodes[m].owned
    {
      var j :| 0 <= j < |order| && order[j] == m;
    }
  }

  /** `r` is `q` with `order[i]` taken out of the list: the others stay linked in
      order, no pointer dangles, no other node's flags change, nodes outside the list
      are untouched, and `order[i]` stays owned. */
  predicate TakenOutOf(q: FilterQueue, r: FilterQueue, order: seq<NodeId>, i: int)
  {
    && 0 <= i < |order|
    && r.nodes.Keys == q.nodes.Keys && order[i] in q.nodes
    && Links(r, RemoveAt(order, i)) && LinksClosed(r)
    && (forall m :: m in q.nodes && m != order[i] ==> (r.nodes[m].active == q.nodes[m].active
          && r.nodes[m].owned == q.nodes[m].owned))
    && (forall m :: m in q.nodes && m !in order ==> r.nodes[m] == q.nodes[m])
    && r.nodes[order[i]].owned
  }

  /** Dequeueing a queued node takes it out, and leaves its flags as they were. */
  lemma DequeueTakesOut(q: FilterQueue, order: seq<NodeId>, i: int)
    requires Valid(q, order) && LinksClosed(q) && 0 <= i < |order|
    ensures CanDequeue(q, order[i]) && TakenOutOf(q, Dequeue(q, order[i]), order, i)
    ensures Dequeue(q, order[i]).nodes[order[i]].active == q.nodes[order[i]].active
  {
    DequeueRemoves(q, order, i);
    UnlinkedFrame(q, Dequeue(q, order[i]), order, i);
    DequeueKeepsClosed(q, order[i]);
  }

  /** `r` differs from `q` at most in the nodes' flags. */
  predicate SameLinks(q: FilterQueue, r: FilterQueue)
  {
    && r.head == q.head && r.tail == q.tail && r.nodes.Keys == q.nodes.Keys
    && (forall m :: m in q.nodes ==> r.nodes[m].link == q.nodes[m].link)
  }

  /** Flags play no part in the linking. */
  lemma SameLinksFrame(q: FilterQueue, r: FilterQueue, order: seq<NodeId>)
    requires SameLinks(q, r)
    ensures Links(q, order) ==> Links(r, order)
    ensures LinksClosed(q) ==> LinksClosed(r)
  {
    if Links(q, order) {
      forall j | 0 <= j < |order|
        ensures r.nodes[order[j]].link == Link(PrevOf(order, j), NextOf(order, j))
      {
        assert q.nodes[order[j]].link == Link(PrevOf(order, j), NextOf(order, j));
      }
    }
  }

  /** The nodes a walk from `ptr` along the `next` pointers visits, stopping at a null
      pointer; a walk that would revisit a node stops there. */
  function Chain(q: FilterQueue, ptr: Option<NodeId>, seen: set<NodeId>): (c: seq<NodeId>)
    ensures forall k :: 0 <= k < |c| ==> c[k] in q.nodes
    decreases q.nodes.Keys - seen
  {
    if ptr.None? || ptr.value !in q.nodes || ptr.value in seen then []
    else [ptr.value] + Chain(q, q.nodes[ptr.value].link.next, seen + {ptr.value})
  }

  /** One step of the walk from a node not yet seen. */
  lemma ChainStep(q: FilterQueue, n: NodeId, seen: set<NodeId>)
    requires n in q.nodes && n !in seen
    ensures Chain(q, Some(n), seen) == [n] + Chain(q, q.nodes[n].link.next, seen + {n})
  {
  }

  /** The `next` pointers lead from each node of `rest` to the one after it, and from
      the last to nowhere. */
  predicate FollowsNext(q: FilterQueue, rest: seq<NodeId>)
  {
    forall j :: 0 <= j < |rest| ==> rest[j] in q.nodes && q.nodes[rest[j]].link.next == NextOf(rest, j)
  }

  lemma FollowsNextTail(q: FilterQueue, rest: seq<NodeId>)
    requires FollowsNext(q, rest) && Distinct(rest) && |rest| > 0
    ensures FollowsNext(q, rest[1..]) && Distinct(rest[1..])
    ensures rest[0] in q.nodes && rest[0] !in rest[1..]
    ensures q.nodes[rest[0]].link.next == (if |rest| > 1 then Some(rest[1]) else None)
  {
    var t := rest[1..];
    forall j | 0 <= j < |t|
      ensures t[j] in q.nodes && q.nodes[t[j]].link.next == NextOf(t, j)
    {
      assert t[j] == rest[j + 1];
      assert NextOf(rest, j + 1) == NextOf(t, j);
    }
  }

  /** A walk along `rest`, none of whose nodes has been seen, visits exactly `rest`. */
  lemma {:induction false} ChainFollows(q: FilterQueue, rest: seq<NodeId>, seen: set<NodeId>)
    requires FollowsNext(q, rest) && Distinct(rest)
    requires forall j :: 0 <= j < |rest| ==> rest[j] !in seen
    ensures Chain(q, if |rest| > 0 then Some(rest[0]) else None, seen) == rest
    decreases |rest|
  {
    if |rest| > 0 {
      var n := rest[0];
      FollowsNextTail(q, rest);
      ChainStep(q, n, seen);
      ChainFollows(q, rest[1..], seen + {n});
      assert rest == [n] + rest[1..];
    }
  }

  /** The walk from the head visits the queued nodes in order, front to back. */
  lemma ChainIsOrder(q: FilterQueue, order: seq<NodeId>)
    requires Links(q, order)
    ensures Chain(q, q.head, {}) == order
  {
    forall j | 0 <= j < |order|
      ensures order[j] in q.nodes && q.nodes[order[j]].link.next == NextOf(order, j)
    {
      assert q.nodes[order[j]].link == Link(PrevOf(order, j), NextOf(order, j));
    }
    ChainFollows(q, order, {});
  }
}
