/** The waiters of a filter queue (`NextEventNode`) and the three operations that
    resume them under the queue's mutex: handing an event to the first waiter that
    accepts it, cancelling every waiter, and cancelling one. Each resumption is
    recorded in a log, so that properties of whole runs (every waiter is resumed at
    most once, and only with an event its filter accepted) can be stated. */
module FilterWaiters {
  import opened Wrappers
  import opened EventNames
  import opened Events
  import opened FilterQueues

  /** `NextEventNode<E, F>`: the event type E it waits for and its user filter F,
      which sees only events of type E. */
  datatype NodeFilter = NodeFilter(wanted: EventType, accept: Event -> bool)

  /** `match_filter`: the event holds an E, and the filter accepts it. */
  function MatchFilter(f: NodeFilter, e: Event): (b: bool)
    ensures b <==> TypeOf(e) == f.wanted && f.accept(e)
  {
    match GetIf(e, f.wanted)
    case Some(x) => f.accept(x)
    case None => false
  }

  predicate Accepts(filters: map<NodeId, NodeFilter>, n: NodeId, e: Event)
  {
    n in filters && MatchFilter(filters[n], e)
  }

  /** The position of the first node in `c` whose filter accepts the event. */
  function FirstAccepting(filters: map<NodeId, NodeFilter>, c: seq<NodeId>, e: Event): (r: Option<nat>)
    ensures r.Some? ==> r.value < |c| && Accepts(filters, c[r.value], e)
    ensures r.Some? ==> forall j :: 0 <= j < r.value ==> !Accepts(filters, c[j], e)
    ensures r.None? ==> forall j :: 0 <= j < |c| ==> !Accepts(filters, c[j], e)
  {
    if |c| == 0 then None
    else if Accepts(filters, c[0], e) then Some(0)
    else
      match FirstAccepting(filters, c[1..], e)
      case Some(i) => assert forall j :: 0 < j <= i ==> c[j] == c[1..][j - 1]; Some(i + 1)
      case None => assert forall j :: 0 < j < |c| ==> c[j] == c[1..][j - 1]; None
  }

  /** Why a waiter was resumed: `filter_event` matched it, `cancel_all` emptied the
      queue, or its own `cancel_task` ran while it was still active. */
  datatype Cause = Matched | CancelledAll | Cancelled

  /** One call of `resume_with`: the waiter, the result it receives (an event, or
      none when it is cancelled), and the operation that resumed it. */
  datatype Resumption = Resumption(node: NodeId, result: Option<Event>, cause: Cause)

  /** The queue, the filter of every node created so far, and every resumption so
      far in the order they happened. */
  datatype Waiters = Waiters(q: FilterQueue, filters: map<NodeId, NodeFilter>, log: seq<Resumption>)

  const NoWaiters: Waiters := Waiters(EmptyQueue, map[], [])

  /** Constructing a `NextEventNode`: a fresh node with its filter. */
  function Create(s: Waiters, n: NodeId, f: NodeFilter): (r: Waiters)
    requires n !in s.q.nodes
  {
    Waiters(s.q.(nodes := s.q.nodes[n := FreshNode]), s.filters[n := f], s.log)
  }

  /** `wait`, up to the suspension: the node is enqueued while the mutex is held. It
      is called once per node, before the node belongs to a queue. */
  function Wait(s: Waiters, n: NodeId): (r: Waiters)
    requires n in s.q.nodes && !s.q.nodes[n].owned
    requires s.q.tail.Some? ==> s.q.tail.value in s.q.nodes
  {
    s.(q := Enqueue(s.q, n))
  }

  function Deactivate(q: FilterQueue, n: NodeId): (r: FilterQueue)
    requires n in q.nodes
  {
    q.(nodes := q.nodes[n := q.nodes[n].(active := false)])
  }

  datatype Filtered = Filtered(matched: bool, after: Waiters)

  /** `filter_event`: walk from the head; the first node whose filter accepts the
      event is dequeued, marked inactive and resumed with the event, and the walk
      stops there. When no node accepts it nothing changes. */
  function FilterEvent(s: Waiters, e: Event): (r: Filtered)
    requires LinksClosed(s.q)
  {
    var c := Chain(s.q, s.q.head, {});
    match FirstAccepting(s.filters, c, e)
    case None => Filtered(false, s)
    case Some(i) =>
      var n := c[i];
      Filtered(true, Waiters(Deactivate(Dequeue(s.q, n), n), s.filters, s.log + [Resumption(n, Some(e), Matched)]))
  }

  /** Clearing the active flag of every node in `c`. */
  function DeactivateAll(nodes: map<NodeId, NodeState>, c: seq<NodeId>): (r: map<NodeId, NodeState>)
    ensures r.Keys == nodes.Keys
    ensures forall m :: m in nodes ==> r[m] == (if m in c then nodes[m].(active := false) else nodes[m])
  {
    if |c| == 0 then nodes
    else
      var rest := DeactivateAll(nodes, c[1..]);
      if c[0] in rest then rest[c[0] := rest[c[0]].(active := false)] else rest
  }

  function CancelLog(c: seq<NodeId>): seq<Resumption>
  {
    seq(|c|, k requires 0 <= k < |c| => Resumption(c[k], None, CancelledAll))
  }

  /** `cancel_all`: walk from the head, marking each node inactive and resuming it
      with no event; the nodes keep their (now stale) pointers, and the queue is left
      empty. */
  function CancelAll(s: Waiters): (r: Waiters)
  {
    var c := Chain(s.q, s.q.head, {});
    Waiters(FilterQueue(None, None, DeactivateAll(s.q.nodes, c)), s.filters, s.log + CancelLog(c))
  }

  /** `cancel_task`: a node that is still active is dequeued and resumed with no
      event, and its active flag stays set; an inactive node (already matched or
      cancelled by `cancel_all`) is left alone. The node must belong to a queue, and
      a second `cancel_task` after one that resumed the node would unlink it again
      through stale pointers, so that is excluded. */
  function Cancel(s: Waiters, n: NodeId): (r: Waiters)
    requires n in s.q.nodes && s.q.nodes[n].owned && LinksClosed(s.q)
    requires Resumption(n, None, Cancelled) !in s.log
  {
    if s.q.nodes[n].active then
      Waiters(Dequeue(s.q, n), s.filters, s.log + [Resumption(n, None, Cancelled)])
    else s
  }

  /** No waiter is resumed twice. */
  predicate AtMostOnce(log: seq<Resumption>)
  {
    forall a, b :: 0 <= a < b < |log| ==> log[a].node != log[b].node
  }

  predicate Resumed(log: seq<Resumption>, n: NodeId)
  {
    exists k :: 0 <= k < |log| && log[k].node == n
  }

  /** The queue part of the invariant: the queued nodes are linked in `order` and are
      active and owned, no pointer dangles, every node has a filter, and a node not
      given to the queue is still fresh. */
  predicate QueueInv(s: Waiters, order: seq<NodeId>)
  {
    && Valid(s.q, order)
    && LinksClosed(s.q)
    && s.filters.Keys == s.q.nodes.Keys
    && (forall m :: m in s.q.nodes && !s.q.nodes[m].owned ==> s.q.nodes[m] == FreshNode)
  }

  /** A resumed waiter has left the queue; it is still active exactly when its own
      cancellation resumed it; it got an event exactly when it was matched, and
      then its filter accepted that event. */
  predicate EntryOk(s: Waiters, order: seq<NodeId>, x: Resumption)
  {
    && x.node in s.q.nodes && x.node in s.filters
    && s.q.nodes[x.node].owned && x.node !in order
    && (s.q.nodes[x.node].active <==> x.cause == Cancelled)
    && (x.cause == Matched <==> x.result.Some?)
    && (x.result.Some? ==> MatchFilter(s.filters[x.node], x.result.value))
  }

  /** The log part: nobody is resumed twice, every resumption is as above, and every
      node given to the queue is either queued or has been resumed. */
  predicate LogInv(s: Waiters, order: seq<NodeId>)
  {
    && AtMostOnce(s.log)
    && (forall k :: 0 <= k < |s.log| ==> EntryOk(s, order, s.log[k]))
    && (forall m :: m in s.q.nodes && s.q.nodes[m].owned && m !in order ==> Resumed(s.log, m))
  }

  predicate Inv(s: Waiters, order: seq<NodeId>)
  {
    QueueInv(s, order) && LogInv(s, order)
  }

  lemma NoWaitersInv()
    ensures Inv(NoWaiters, [])
  {
  }

  /** Where `n` stands in `order`. */
  function IndexOf(order: seq<NodeId>, n: NodeId): (i: nat)
    requires n in order
    ensures i < |order| && order[i] == n
  {
    if order[0] == n then 0 else 1 + IndexOf(order[1..], n)
  }

  /** Deactivating the node taken out keeps it taken out. */
  lemma DeactivateTakenOut(q: FilterQueue, r: FilterQueue, order: seq<NodeId>, i: int)
    requires TakenOutOf(q, r, order, i)
    ensures TakenOutOf(q, Deactivate(r, order[i]), order, i)
  {
    SameLinksFrame(r, Deactivate(r, order[i]), RemoveAt(order, i));
  }

  /** What `filter_event` and `cancel_task` leave behind when they take `order[i]`
      out of the queue: the queue with it taken out, and one log entry for it. */
  ghost predicate TakenOut(s: Waiters, r: Waiters, order: seq<NodeId>, i: int, x: Resumption)
  {
    && TakenOutOf(s.q, r.q, order, i)
    && r.filters == s.filters
    && r.log == s.log + [x] && x.node == order[i]
  }

  /** The nodes left in the queue keep their flags. */
  lemma RemovedFlags(q: FilterQueue, order: seq<NodeId>, i: int, r: FilterQueue)
    requires QueuedFlags(q, order) && Distinct(order) && 0 <= i < |order| && r.nodes.Keys == q.nodes.Keys
    requires forall m :: m in q.nodes && m != order[i] ==> (r.nodes[m].active == q.nodes[m].active
      && r.nodes[m].owned == q.nodes[m].owned)
    ensures QueuedFlags(r, RemoveAt(order, i))
  {
    var o := RemoveAt(order, i);
    forall j | 0 <= j < |o|
      ensures o[j] in r.nodes && r.nodes[o[j]].active && r.nodes[o[j]].owned
    {
      var k := if j < i then j else j + 1;
      assert o[j] == order[k] && order[k] != order[i];
    }
  }

  lemma RemovedQueueInv(s: Waiters, order: seq<NodeId>, i: int, r: Waiters)
    requires QueueInv(s, order) && TakenOutOf(s.q, r.q, order, i) && r.filters == s.filters
    ensures QueueInv(r, RemoveAt(order, i))
  {
    RemovedFlags(s.q, order, i, r.q);
    QueuedMembers(s.q, order);
  }

  lemma RemovedLogInv(s: Waiters, order: seq<NodeId>, i: int, r: Waiters, x: Resumption)
    requires LogInv(s, order) && Distinct(order) && TakenOutOf(s.q, r.q, order, i)
    requires r.filters == s.filters && r.log == s.log + [x] && x.node == order[i]
    requires EntryOk(r, RemoveAt(order, i), x)
    ensures LogInv(r, RemoveAt(order, i))
  {
    var o := RemoveAt(order, i);
    RemoveAtMembers(order, i);
    forall k | 0 <= k < |s.log|
      ensures r.log[k] == s.log[k] && EntryOk(r, o, s.log[k])
    {
      assert EntryOk(s, order, s.log[k]);
    }
    forall a, b | 0 <= a < b < |r.log|
      ensures r.log[a].node != r.log[b].node
    {
      if b == |s.log| {
        assert EntryOk(s, order, s.log[a]);
      }
    }
    forall m | m in r.q.nodes && r.q.nodes[m].owned && m !in o
      ensures Resumed(r.log, m)
    {
      if m == x.node {
        assert r.log[|s.log|].node == m;
      } else {
        assert Resumed(s.log, m);
        var k :| 0 <= k < |s.log| && s.log[k].node == m;
        assert r.log[k].node == m;
      }
    }
  }

  /** The common end of `filter_event` and `cancel_task`: once `order[i]` is taken
      out and its log entry written, the invariant holds for the shortened order. */
  lemma TakenOutInv(s: Waiters, r: Waiters, order: seq<NodeId>, i: int, x: Resumption)
    requires Inv(s, order) && TakenOut(s, r, order, i, x)
    requires EntryOk(r, RemoveAt(order, i), x)
    ensures Inv(r, RemoveAt(order, i))
  {
    RemovedQueueInv(s, order, i, r);
    RemovedLogInv(s, order, i, r, x);
  }

  /** On a well-formed queue the walk visits the queued nodes in order, so the winner
      of `filter_event` is the first queued node, in registration order, whose filter
      accepts the event; with no such node nothing changes. */
  lemma FilterEventPicksFirst(s: Waiters, order: seq<NodeId>, e: Event)
    requires Links(s.q, order) && LinksClosed(s.q)
    ensures FirstAccepting(s.filters, order, e).None? ==> FilterEvent(s, e) == Filtered(false, s)
    ensures FirstAccepting(s.filters, order, e).Some? ==> (
      var n := order[FirstAccepting(s.filters, order, e).value];
      FilterEvent(s, e) == Filtered(true, Waiters(Deactivate(Dequeue(s.q, n), n), s.filters,
        s.log + [Resumption(n, Some(e), Matched)])))
  {
    ChainIsOrder(s.q, order);
  }

  /** `filter_event` returns true exactly when some queued waiter accepts the event,
      and resumes nobody otherwise. */
  lemma FilterEventMatchedIff(s: Waiters, order: seq<NodeId>, e: Event)
    requires Links(s.q, order) && LinksClosed(s.q)
    ensures FilterEvent(s, e).matched <==> exists j :: 0 <= j < |order| && Accepts(s.filters, order[j], e)
    ensures !FilterEvent(s, e).matched ==> FilterEvent(s, e).after == s
    ensures FilterEvent(s, e).matched ==> |FilterEvent(s, e).after.log| == |s.log| + 1
  {
    FilterEventPicksFirst(s, order, e);
  }

  lemma FilterEventTakesOut(s: Waiters, order: seq<NodeId>, e: Event)
    requires Valid(s.q, order) && LinksClosed(s.q) && FirstAccepting(s.filters, order, e).Some?
    ensures (var i := FirstAccepting(s.filters, order, e).value;
      && TakenOut(s, FilterEvent(s, e).after, order, i, Resumption(order[i], Some(e), Matched))
      && !FilterEvent(s, e).after.q.nodes[order[i]].active)
  {
    var i := FirstAccepting(s.filters, order, e).value;
    FilterEventPicksFirst(s, order, e);
    DequeueTakesOut(s.q, order, i);
    DeactivateTakenOut(s.q, Dequeue(s.q, order[i]), order, i);
  }

  /** After a match the winner has left the queue and the invariant holds for the
      remaining nodes. */
  lemma FilterEventInv(s: Waiters, order: seq<NodeId>, e: Event)
    requires Inv(s, order) && FirstAccepting(s.filters, order, e).Some?
    ensures Inv(FilterEvent(s, e).after, RemoveAt(order, FirstAccepting(s.filters, order, e).value))
  {
    var i := FirstAccepting(s.filters, order, e).value;
    FilterEventTakesOut(s, order, e);
    RemoveAtMembers(order, i);
    TakenOutInv(s, FilterEvent(s, e).after, order, i, Resumption(order[i], Some(e), Matched));
  }

  /** A node given to the queue that is active but no longer queued was resumed by
      its own `cancel_task`. */
  lemma UnqueuedActiveWasCancelled(s: Waiters, order: seq<NodeId>, n: NodeId)
    requires LogInv(s, order)
    requires n in s.q.nodes && s.q.nodes[n].owned && s.q.nodes[n].active && n !in order
    ensures Resumption(n, None, Cancelled) in s.log
  {
    var k :| 0 <= k < |s.log| && s.log[k].node == n;
    assert EntryOk(s, order, s.log[k]);
    assert s.log[k] == Resumption(n, None, Cancelled);
  }

  lemma CancelTakesOut(s: Waiters, order: seq<NodeId>, n: NodeId)
    requires Valid(s.q, order) && LinksClosed(s.q) && n in order
    requires Resumption(n, None, Cancelled) !in s.log
    ensures (var i := IndexOf(order, n);
      && TakenOut(s, Cancel(s, n), order, i, Resumption(n, None, Cancelled))
      && Cancel(s, n).q.nodes[n].active)
  {
    QueuedMembers(s.q, order);
    DequeueTakesOut(s.q, order, IndexOf(order, n));
  }

  /** `cancel_task` on an active node takes it out of the queue, resumes it with no
      event and leaves it active; on an inactive node it changes nothing. */
  lemma CancelInv(s: Waiters, order: seq<NodeId>, n: NodeId)
    requires Inv(s, order) && n in s.q.nodes && s.q.nodes[n].owned
    requires Resumption(n, None, Cancelled) !in s.log
    ensures !s.q.nodes[n].active ==> Cancel(s, n) == s
    ensures s.q.nodes[n].active ==> (n in order
      && Cancel(s, n).log == s.log + [Resumption(n, None, Cancelled)]
      && Cancel(s, n).q.nodes[n].active
      && n !in RemoveAt(order, IndexOf(order, n))
      && Inv(Cancel(s, n), RemoveAt(order, IndexOf(order, n))))
  {
    if s.q.nodes[n].active {
      if n !in order {
        UnqueuedActiveWasCancelled(s, order, n);
      }
      var i := IndexOf(order, n);
      CancelTakesOut(s, order, n);
      RemoveAtMembers(order, i);
      TakenOutInv(s, Cancel(s, n), order, i, Resumption(n, None, Cancelled));
    }
  }

  /** On a well-formed queue `cancel_all` walks exactly the queued nodes. */
  lemma CancelAllWalksOrder(s: Waiters, order: seq<NodeId>)
    requires Links(s.q, order)
    ensures CancelAll(s) == Waiters(FilterQueue(None, None, DeactivateAll(s.q.nodes, order)), s.filters,
      s.log + CancelLog(order))
  {
    ChainIsOrder(s.q, order);
  }

  lemma DeactivateAllClosed(q: FilterQueue, c: seq<NodeId>)
    requires LinksClosed(q)
    ensures LinksClosed(FilterQueue(None, None, DeactivateAll(q.nodes, c)))
  {
    var r := FilterQueue(None, None, DeactivateAll(q.nodes, c));
    assert SameLinks(q, r.(head := q.head, tail := q.tail));
    SameLinksFrame(q, r.(head := q.head, tail := q.tail), []);
  }

  lemma CancelAllQueueInv(s: Waiters, order: seq<NodeId>, r: Waiters)
    requires QueueInv(s, order)
    requires forall m :: m in order ==> m in s.q.nodes && s.q.nodes[m].owned
    requires r == Waiters(FilterQueue(None, None, DeactivateAll(s.q.nodes, order)), s.filters, s.log + CancelLog(order))
    ensures QueueInv(r, [])
  {
    DeactivateAllClosed(s.q, order);
    assert Links(r.q, []);
    assert QueuedFlags(r.q, []);
    assert LinksClosed(r.q);
    assert r.filters.Keys == r.q.nodes.Keys;
    forall m | m in r.q.nodes && !r.q.nodes[m].owned
      ensures r.q.nodes[m] == FreshNode
    {
      assert m !in order;
    }
  }

  /** Where each entry of the log after `cancel_all` comes from. */
  lemma CancelLogAt(log: seq<Resumption>, order: seq<NodeId>)
    ensures |log + CancelLog(order)| == |log| + |order|
    ensures forall k :: 0 <= k < |log| ==> (log + CancelLog(order))[k] == log[k]
    ensures forall j :: 0 <= j < |order| ==> (log + CancelLog(order))[|log| + j] == Resumption(order[j], None, CancelledAll)
  {
  }

  lemma CancelAllEntries(s: Waiters, order: seq<NodeId>, r: Waiters)
    requires forall k :: 0 <= k < |s.log| ==> EntryOk(s, order, s.log[k])
    requires forall m :: m in order ==> m in s.q.nodes && s.q.nodes[m].owned
    requires s.filters.Keys == s.q.nodes.Keys
    requires r == Waiters(FilterQueue(None, None, DeactivateAll(s.q.nodes, order)), s.filters, s.log + CancelLog(order))
    ensures forall k :: 0 <= k < |r.log| ==> EntryOk(r, [], r.log[k])
  {
    CancelLogAt(s.log, order);
    var n := |s.log|;
    forall k | 0 <= k < |r.log|
      ensures EntryOk(r, [], r.log[k])
    {
      if k < n {
        assert EntryOk(s, order, s.log[k]);
      } else {
        assert r.log[k] == Resumption(order[k - n], None, CancelledAll);
      }
    }
  }

  lemma CancelAllOnce(log: seq<Resumption>, order: seq<NodeId>)
    requires AtMostOnce(log) && Distinct(order)
    requires forall k :: 0 <= k < |log| ==> log[k].node !in order
    ensures AtMostOnce(log + CancelLog(order))
  {
    CancelLogAt(log, order);
    var r := log + CancelLog(order);
    var n := |log|;
    forall a, b | 0 <= a < b < |r|
      ensures r[a].node != r[b].node
    {
      if b >= n && a < n {
        assert r[b].node == order[b - n];
      } else if a >= n {
        assert r[a].node == order[a - n] && r[b].node == order[b - n];
      }
    }
  }

  lemma CancelAllResumed(log: seq<Resumption>, order: seq<NodeId>, m: NodeId)
    requires m in order || Resumed(log, m)
    ensures Resumed(log + CancelLog(order), m)
  {
    CancelLogAt(log, order);
    if m in order {
      var j :| 0 <= j < |order| && order[j] == m;
      assert (log + CancelLog(order))[|log| + j].node == m;
    } else {
      var k :| 0 <= k < |log| && log[k].node == m;
      assert (log + CancelLog(order))[k].node == m;
    }
  }

  lemma CancelAllLogInv(s: Waiters, order: seq<NodeId>, r: Waiters)
    requires LogInv(s, order) && Distinct(order) && s.filters.Keys == s.q.nodes.Keys
    requires forall m :: m in order ==> m in s.q.nodes && s.q.nodes[m].owned
    requires r == Waiters(FilterQueue(None, None, DeactivateAll(s.q.nodes, order)), s.filters, s.log + CancelLog(order))
    ensures LogInv(r, [])
  {
    CancelAllEntries(s, order, r);
    forall k | 0 <= k < |s.log|
      ensures s.log[k].node !in order
    {
      assert EntryOk(s, order, s.log[k]);
    }
    CancelAllOnce(s.log, order);
    forall m | m in r.q.nodes && r.q.nodes[m].owned
      ensures Resumed(r.log, m)
    {
      CancelAllResumed(s.log, order, m);
    }
  }

  /** `cancel_all` resumes every queued node, front to back, with no event, leaves
      them all inactive and the queue empty, and keeps the invariant. */
  lemma CancelAllInv(s: Waiters, order: seq<NodeId>)
    requires Inv(s, order)
    ensures CancelAll(s).log == s.log + CancelLog(order)
    ensures CancelAll(s).q.head.None? && CancelAll(s).q.tail.None?
    ensures forall j :: 0 <= j < |order| ==> !CancelAll(s).q.nodes[order[j]].active
    ensures Inv(CancelAll(s), [])
  {
    CancelAllWalksOrder(s, order);
    QueuedMembers(s.q, order);
    CancelAllQueueInv(s, order, CancelAll(s));
    CancelAllLogInv(s, order, CancelAll(s));
  }

  lemma CreateQueueInv(s: Waiters, order: seq<NodeId>, n: NodeId, f: NodeFilter)
    requires QueueInv(s, order) && n !in s.q.nodes
    ensures QueueInv(Create(s, n, f), order)
  {
    var r := Create(s, n, f);
    QueuedMembers(s.q, order);
    forall j | 0 <= j < |order|
      ensures r.q.nodes[order[j]] == s.q.nodes[order[j]]
    {
      assert order[j] in s.q.nodes;
    }
  }

  lemma CreateLogInv(s: Waiters, order: seq<NodeId>, n: NodeId, f: NodeFilter)
    requires LogInv(s, order) && n !in s.q.nodes && s.filters.Keys == s.q.nodes.Keys
    ensures LogInv(Create(s, n, f), order)
  {
    var r := Create(s, n, f);
    forall k | 0 <= k < |s.log|
      ensures EntryOk(r, order, s.log[k])
    {
      assert EntryOk(s, order, s.log[k]);
    }
    forall m | m in r.q.nodes && r.q.nodes[m].owned && m !in order
      ensures Resumed(r.log, m)
    {
      assert m in s.q.nodes;
    }
  }

  /** A new node joins no queue and disturbs nothing. */
  lemma CreateInv(s: Waiters, order: seq<NodeId>, n: NodeId, f: NodeFilter)
    requires Inv(s, order) && n !in s.q.nodes
    ensures Inv(Create(s, n, f), order)
  {
    CreateQueueInv(s, order, n, f);
    CreateLogInv(s, order, n, f);
  }

  lemma WaitQueueInv(s: Waiters, order: seq<NodeId>, n: NodeId)
    requires QueueInv(s, order) && n in s.q.nodes && !s.q.nodes[n].owned
    ensures (s.q.tail.Some? ==> s.q.tail.value in s.q.nodes) && n !in order
    ensures Appended(s.q, Wait(s, n).q, order, n)
    ensures QueueInv(Wait(s, n), order + [n])
  {
    EnqueueAppends(s.q, order, n);
    EnqueueKeepsClosed(s.q, n);
    QueuedMembers(s.q, order);
    var r := Wait(s, n);
    forall m | m in r.q.nodes && !r.q.nodes[m].owned
      ensures r.q.nodes[m] == FreshNode
    {
      assert m != n && m !in order;
    }
  }

  lemma WaitLogInv(s: Waiters, order: seq<NodeId>, n: NodeId, r: Waiters)
    requires LogInv(s, order) && n in s.q.nodes && !s.q.nodes[n].owned && n !in order
    requires forall m :: m in order ==> m in s.q.nodes && s.q.nodes[m].owned
    requires r.log == s.log && r.filters == s.filters && Appended(s.q, r.q, order, n)
    ensures LogInv(r, order + [n])
  {
    forall k | 0 <= k < |s.log|
      ensures EntryOk(r, order + [n], s.log[k])
    {
      assert EntryOk(s, order, s.log[k]);
    }
    forall m | m in r.q.nodes && r.q.nodes[m].owned && m !in order + [n]
      ensures Resumed(r.log, m)
    {
      assert m != n && m !in order;
    }
  }

  /** `wait` puts the node at the back of the queue and resumes nobody. */
  lemma WaitInv(s: Waiters, order: seq<NodeId>, n: NodeId)
    requires Inv(s, order) && n in s.q.nodes && !s.q.nodes[n].owned
    ensures s.q.tail.Some? ==> s.q.tail.value in s.q.nodes
    ensures Wait(s, n).log == s.log
    ensures Inv(Wait(s, n), order + [n])
  {
    WaitQueueInv(s, order, n);
    QueuedMembers(s.q, order);
    WaitLogInv(s, order, n, Wait(s, n));
  }

  /** The locked sections a program can run on the waiters, in any interleaving. */
  datatype Action =
    | NewNode(n: NodeId, f: NodeFilter)
    | WaitOn(n: NodeId)
    | Deliver(e: Event)
    | CancelEvery
    | CancelOne(n: NodeId)

  /** What each operation demands of the state it runs on. */
  predicate Enabled(s: Waiters, a: Action)
  {
    match a
    case NewNode(n, _) => n !in s.q.nodes
    case WaitOn(n) => n in s.q.nodes && !s.q.nodes[n].owned && (s.q.tail.Some? ==> s.q.tail.value in s.q.nodes)
    case Deliver(_) => LinksClosed(s.q)
    case CancelEvery => true
    case CancelOne(n) => n in s.q.nodes && s.q.nodes[n].owned && LinksClosed(s.q) && Resumption(n, None, Cancelled) !in s.log
  }

  function Step(s: Waiters, a: Action): Waiters
    requires Enabled(s, a)
  {
    match a
    case NewNode(n, f) => Create(s, n, f)
    case WaitOn(n) => Wait(s, n)
    case Deliver(e) => FilterEvent(s, e).after
    case CancelEvery => CancelAll(s)
    case CancelOne(n) => Cancel(s, n)
  }

  /** Every action of the sequence is enabled when its turn comes. */
  predicate Admissible(s: Waiters, acts: seq<Action>)
    decreases |acts|
  {
    |acts| == 0 || (Enabled(s, acts[0]) && Admissible(Step(s, acts[0]), acts[1..]))
  }

  function Run(s: Waiters, acts: seq<Action>): Waiters
    requires Admissible(s, acts)
    decreases |acts|
  {
    if |acts| == 0 then s else Run(Step(s, acts[0]), acts[1..])
  }

  /** The queued nodes after one action. */
  ghost function OrderAfter(s: Waiters, order: seq<NodeId>, a: Action): seq<NodeId>
  {
    match a
    case NewNode(_, _) => order
    case WaitOn(n) => order + [n]
    case Deliver(e) =>
      (match FirstAccepting(s.filters, order, e)
       case Some(i) => if i < |order| then RemoveAt(order, i) else order
       case None => order)
    case CancelEvery => []
    case CancelOne(n) => if n in order && n in s.q.nodes && s.q.nodes[n].active then RemoveAt(order, IndexOf(order, n)) else order
  }

  /** Every action keeps the invariant and only appends to the log. */
  lemma StepInv(s: Waiters, order: seq<NodeId>, a: Action)
    requires Inv(s, order) && Enabled(s, a)
    ensures Inv(Step(s, a), OrderAfter(s, order, a))
    ensures s.log <= Step(s, a).log
  {
    match a
    case NewNode(n, f) => CreateInv(s, order, n, f);
    case WaitOn(n) => WaitInv(s, order, n);
    case Deliver(e) =>
      FilterEventPicksFirst(s, order, e);
      if FirstAccepting(s.filters, order, e).Some? {
        FilterEventInv(s, order, e);
      }
    case CancelEvery => CancelAllInv(s, order);
    case CancelOne(n) => CancelInv(s, order, n);
  }

  /** The queued nodes after a run. */
  ghost function OrderAfterRun(s: Waiters, order: seq<NodeId>, acts: seq<Action>): seq<NodeId>
    requires Admissible(s, acts)
    decreases |acts|
  {
    if |acts| == 0 then order else OrderAfterRun(Step(s, acts[0]), OrderAfter(s, order, acts[0]), acts[1..])
  }

  /** Every admissible run keeps the invariant and only appends to the log. */
  lemma {:induction false} RunInv(s: Waiters, order: seq<NodeId>, acts: seq<Action>)
    requires Inv(s, order) && Admissible(s, acts)
    ensures Inv(Run(s, acts), OrderAfterRun(s, order, acts))
    ensures s.log <= Run(s, acts).log
    decreases |acts|
  {
    if |acts| > 0 {
      StepInv(s, order, acts[0]);
      RunInv(Step(s, acts[0]), OrderAfter(s, order, acts[0]), acts[1..]);
    }
  }

  /** What `wait` completes with once resumed: stopped, without a value, when there
      is no event; otherwise `get<E>` of the event, which could fail. */
  datatype WaitResult = Stopped | Returned(value: Result<Event>)

  function WaitOutcome(res: Option<Event>, wanted: EventType): WaitResult
  {
    match res
    case None => Stopped
    case Some(e) => Returned(Get(e, wanted))
  }

  /** Under the invariant every waiter resumed so far completes as its cause says: a
      matched waiter returns its event, which holds the type it waits for and which
      its filter accepted, so `get<E>` never fails; a cancelled one stops. */
  lemma ResumedOutcome(s: Waiters, order: seq<NodeId>, k: int)
    requires Inv(s, order) && 0 <= k < |s.log|
    ensures s.log[k].node in s.filters
    ensures (var x := s.log[k]; var f := s.filters[x.node];
      && (x.cause == Matched ==> (x.result.Some? && WaitOutcome(x.result, f.wanted) == Returned(Ok(x.result.value))
            && f.accept(x.result.value)))
      && (x.cause != Matched ==> WaitOutcome(x.result, f.wanted) == Stopped))
  {
    assert EntryOk(s, order, s.log[k]);
  }

  /** From no waiters, any admissible interleaving of the operations resumes each
      waiter at most once, and a waiter given an event can read it as the type it
      waits for. */
  lemma ResumedAtMostOnce(acts: seq<Action>)
    requires Admissible(NoWaiters, acts)
    ensures AtMostOnce(Run(NoWaiters, acts).log)
    ensures forall k :: 0 <= k < |Run(NoWaiters, acts).log| ==> (var x := Run(NoWaiters, acts).log[k];
      x.result.Some? ==> (x.node in Run(NoWaiters, acts).filters
        && Get(x.result.value, Run(NoWaiters, acts).filters[x.node].wanted) == Ok(x.result.value)))
  {
    NoWaitersInv();
    RunInv(NoWaiters, [], acts);
    var r := Run(NoWaiters, acts);
    var o := OrderAfterRun(NoWaiters, [], acts);
    forall k | 0 <= k < |r.log|
      ensures (var x := r.log[k]; x.result.Some? ==> (x.node in r.filters
        && Get(x.result.value, r.filters[x.node].wanted) == Ok(x.result.value)))
    {
      ResumedOutcome(r, o, k);
    }
  }
}
