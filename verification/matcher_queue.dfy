/** The pattern matcher queue: a vector of waiting items, each with an event type, a
    list of patterns, a one-shot done flag set by atomic exchange, and the event
    stored for its waiter. An incoming event is offered to every pending item under
    the queue's mutex, and every item that matches is resumed; a waiter can also be
    cancelled, without the mutex, by racing for the done flag. */
module MatcherQueues {
  import opened Wrappers
  import opened EventNames
  import opened Events
  import opened Patterns
  import FilterQueues

  type ItemId = nat

  /** `ItemImpl<E, Ps...>`: the event type E, the patterns, the done flag and the
      stored `event_`. */
  datatype Item = Item(wanted: EventType, patterns: seq<Pattern>, done: bool, event: Option<Event>)

  /** Every pattern fits E, as the template's `PatternFor<E>` constraints demand. */
  predicate WellTyped(it: Item)
  {
    forall i :: 0 <= i < |it.patterns| ==> PatternFor(it.patterns[i], it.wanted)
  }

  /** A new item is not done and holds no event. */
  function NewItem(wanted: EventType, patterns: seq<Pattern>): Item
  {
    Item(wanted, patterns, false, None)
  }

  lemma PatternsApply(it: Item, e: Event)
    requires WellTyped(it) && TypeOf(e) == it.wanted
    ensures AllApply(it.patterns, e)
  {
    forall i | 0 <= i < |it.patterns|
      ensures AppliesTo(it.patterns[i], e)
    {
      PatternForType(it.patterns[i], e);
    }
  }

  /** The test inside `match`: the event holds an E and `match_with` accepts it. */
  function Accepts(it: Item, e: Event): (b: bool)
    requires WellTyped(it)
    ensures b ==> TypeOf(e) == it.wanted
  {
    match GetIf(e, it.wanted)
    case None => false
    case Some(x) => PatternsApply(it, x); MatchWith(x, it.patterns)
  }

  /** An event of type E is accepted exactly when every pattern matches it. */
  lemma AcceptsMeaning(it: Item, e: Event)
    requires WellTyped(it) && TypeOf(e) == it.wanted
    ensures AllApply(it.patterns, e)
    ensures Accepts(it, e) <==> forall i :: 0 <= i < |it.patterns| ==> Match(it.patterns[i], e)
  {
    PatternsApply(it, e);
  }

  datatype Exchanged = Exchanged(was: bool, item: Item)

  /** `set_done`: an atomic exchange that sets the flag and returns its old value. */
  function SetDone(it: Item): (r: Exchanged)
    ensures r.item.done && r.was == it.done
    ensures r.item.(done := it.done) == it
  {
    Exchanged(it.done, it.(done := true))
  }

  /** Of any sequence of `set_done` calls on one item, only the first sees false. */
  lemma SetDoneOnlyFirstWins(it: Item)
    ensures SetDone(SetDone(it).item).was
    ensures SetDone(SetDone(it).item).item == SetDone(it).item
  {
  }

  datatype MatchOutcome = MatchOutcome(matched: bool, item: Item, resumed: bool)

  /** `ItemImpl::match`: on a match the event is stored first, then the done flag is
      raced for, and only the winner resumes the waiter and reports a match. */
  function ItemMatch(it: Item, e: Event): (r: MatchOutcome)
    requires WellTyped(it)
    ensures r.matched == r.resumed
    ensures r.matched <==> Accepts(it, e) && !it.done
    ensures !Accepts(it, e) ==> r.item == it
    ensures Accepts(it, e) ==> r.item == it.(event := Some(e), done := true)
  {
    if Accepts(it, e) then
      var x := SetDone(it.(event := Some(e)));
      MatchOutcome(!x.was, x.item, !x.was)
    else MatchOutcome(false, it, false)
  }

  /** An item already done (cancelled) is never resumed again by `match`, though the
      event it accepts is still stored into it. */
  lemma MatchOnDoneItem(it: Item, e: Event)
    requires WellTyped(it) && it.done
    ensures !ItemMatch(it, e).resumed && !ItemMatch(it, e).matched
    ensures Accepts(it, e) ==> ItemMatch(it, e).item.event == Some(e)
  {
  }

  /** One resumption of a waiter, with what its `await_resume` yields: the item's
      stored event at that moment, if any. */
  datatype Resumption = Resumption(item: ItemId, event: Option<Event>)

  /** The items alive so far, the queue of owned items in order, and every resumption
      so far. */
  datatype MatcherQueue = MatcherQueue(items: map<ItemId, Item>, queue: seq<ItemId>, log: seq<Resumption>)

  const EmptyMatcherQueue: MatcherQueue := MatcherQueue(map[], [], [])

  /** `operator co_await`, up to the suspension: the new item is appended under the
      mutex. */
  function Enqueue(s: MatcherQueue, id: ItemId, wanted: EventType, patterns: seq<Pattern>): (r: MatcherQueue)
    requires id !in s.items
  {
    MatcherQueue(s.items[id := NewItem(wanted, patterns)], s.queue + [id], s.log)
  }

  /** `Awaitable::cancel`: whoever sets the done flag first resumes the waiter; a
      cancel that loses the race does nothing. The item must still be owned by the
      queue. */
  function Cancel(s: MatcherQueue, id: ItemId): (r: MatcherQueue)
    requires id in s.items && id in s.queue
  {
    var x := SetDone(s.items[id]);
    MatcherQueue(s.items[id := x.item], s.queue,
      if x.was then s.log else s.log + [Resumption(id, x.item.event)])
  }

  predicate Alive(items: map<ItemId, Item>, q: seq<ItemId>)
  {
    forall j :: 0 <= j < |q| ==> q[j] in items && WellTyped(items[q[j]])
  }

  /** What the scan leaves: whether anything matched, the items kept in order, the
      items' new states, and the waiters resumed in order. */
  datatype Scanned = Scanned(matched: bool, kept: seq<ItemId>, items: map<ItemId, Item>, resumed: seq<Resumption>)

  /** `erase_if` over the queue with the predicate of `match_event_async`, first to
      last: a done item is erased without being offered the event; otherwise the item
      is offered it, and erased if it matched; it is kept if it did not. */
  function Scan(items: map<ItemId, Item>, q: seq<ItemId>, e: Event): (r: Scanned)
    requires Alive(items, q)
    ensures r.items.Keys == items.Keys
    ensures forall id :: id in items ==> (r.items[id].wanted == items[id].wanted
      && r.items[id].patterns == items[id].patterns)
  {
    if |q| == 0 then Scanned(false, [], items, [])
    else
      var id := q[0];
      var it := items[id];
      if it.done then
        Scan(items, q[1..], e)
      else
        var m := ItemMatch(it, e);
        var rest := Scan(items[id := m.item], q[1..], e);
        if m.matched then Scanned(true, rest.kept, rest.items, [Resumption(id, Some(e))] + rest.resumed)
        else Scanned(rest.matched, [id] + rest.kept, rest.items, rest.resumed)
  }

  /** `match_event_async`, as one step under the mutex. */
  function MatchEvent(s: MatcherQueue, e: Event): (r: (bool, MatcherQueue))
    requires Alive(s.items, s.queue)
  {
    var x := Scan(s.items, s.queue, e);
    (x.matched, MatcherQueue(x.items, x.kept, s.log + x.resumed))
  }

  /** The item is pending and the event matches it. */
  predicate Hit(items: map<ItemId, Item>, id: ItemId, e: Event)
    requires id in items && WellTyped(items[id])
  {
    !items[id].done && Accepts(items[id], e)
  }

  /** Reference reading of the scan: the items kept are the pending ones that do not
      match, in their original order; ... */
  function KeptRef(items: map<ItemId, Item>, q: seq<ItemId>, e: Event): (r: seq<ItemId>)
    requires Alive(items, q)
    ensures forall x :: x in r <==> exists j :: 0 <= j < |q| && q[j] == x && !items[x].done && !Accepts(items[x], e)
  {
    if |q| == 0 then []
    else
      var rest := KeptRef(items, q[1..], e);
      assert forall j :: 0 < j < |q| ==> q[1..][j - 1] == q[j];
      if !items[q[0]].done && !Accepts(items[q[0]], e) then [q[0]] + rest else rest
  }

  /** ... and the waiters resumed are the pending ones that match, in their original
      order. */
  function HitsRef(items: map<ItemId, Item>, q: seq<ItemId>, e: Event): (r: seq<ItemId>)
    requires Alive(items, q)
    ensures forall x :: x in r <==> exists j :: 0 <= j < |q| && q[j] == x && !items[x].done && Accepts(items[x], e)
  {
    if |q| == 0 then []
    else
      var rest := HitsRef(items, q[1..], e);
      assert forall j :: 0 < j < |q| ==> q[1..][j - 1] == q[j];
      if !items[q[0]].done && Accepts(items[q[0]], e) then [q[0]] + rest else rest
  }

  /** The resumptions of the given waiters, each with the event. */
  function WithEvent(ids: seq<ItemId>, e: Event): (r: seq<Resumption>)
    ensures |r| == |ids|
    ensures forall k :: 0 <= k < |ids| ==> r[k] == Resumption(ids[k], Some(e))
  {
    if |ids| == 0 then [] else [Resumption(ids[0], Some(e))] + WithEvent(ids[1..], e)
  }

  /** The reference readings look only at the items in the queue. */
  lemma {:induction false} RefFrame(items: map<ItemId, Item>, other: map<ItemId, Item>, q: seq<ItemId>, e: Event)
    requires Alive(items, q)
    requires forall j :: 0 <= j < |q| ==> q[j] in other && other[q[j]] == items[q[j]]
    ensures Alive(other, q)
    ensures KeptRef(other, q, e) == KeptRef(items, q, e)
    ensures HitsRef(other, q, e) == HitsRef(items, q, e)
  {
    if |q| > 0 {
      RefFrame(items, other, q[1..], e);
    }
  }

  /** The new state of one item after the scan: a pending item that matches has the
      event stored and is done; every other item, in the queue or not, is as it was. */
  function AfterScan(items: map<ItemId, Item>, q: seq<ItemId>, e: Event, id: ItemId): Item
    requires Alive(items, q) && id in items
  {
    if id in q && !items[id].done && WellTyped(items[id]) && Accepts(items[id], e)
    then items[id].(event := Some(e), done := true) else items[id]
  }

  lemma {:induction false} ScanMatched(items: map<ItemId, Item>, q: seq<ItemId>, e: Event)
    requires Alive(items, q)
    ensures Scan(items, q, e).matched <==> |Scan(items, q, e).resumed| > 0
  {
    if |q| > 0 {
      var id, rest := q[0], q[1..];
      var it := items[id];
      assert forall j :: 0 <= j < |rest| ==> rest[j] == q[j + 1];
      if it.done {
        ScanMatched(items, rest, e);
      } else {
        var m := ItemMatch(it, e);
        var next := items[id := m.item];
        assert Alive(next, rest);
        ScanMatched(next, rest, e);
        var r := Scan(next, rest, e);
        assert Scan(items, q, e) == if m.matched then Scanned(true, r.kept, r.items, [Resumption(id, Some(e))] + r.resumed)
          else Scanned(r.matched, [id] + r.kept, r.items, r.resumed);
      }
    }
  }

  lemma DistinctTail(q: seq<ItemId>)
    requires |q| > 0 && FilterQueues.Distinct(q)
    ensures FilterQueues.Distinct(q[1..]) && q[0] !in q[1..]
  {
    assert forall j :: 0 <= j < |q[1..]| ==> q[1..][j] == q[j + 1];
  }

  lemma {:induction false} ScanKept(items: map<ItemId, Item>, q: seq<ItemId>, e: Event)
    requires Alive(items, q) && FilterQueues.Distinct(q)
    ensures Scan(items, q, e).kept == KeptRef(items, q, e)
    ensures Scan(items, q, e).resumed == WithEvent(HitsRef(items, q, e), e)
  {
    if |q| > 0 {
      var id, rest := q[0], q[1..];
      DistinctTail(q);
      var it := items[id];
      if it.done {
        ScanKept(items, rest, e);
      } else {
        var next := items[id := ItemMatch(it, e).item];
        RefFrame(items, next, rest, e);
        ScanKept(next, rest, e);
        var h := HitsRef(items, rest, e);
        assert WithEvent([id] + h, e) == [Resumption(id, Some(e))] + WithEvent(h, e);
      }
    }
  }

  lemma {:induction false} ScanItems(items: map<ItemId, Item>, q: seq<ItemId>, e: Event)
    requires Alive(items, q) && FilterQueues.Distinct(q)
    ensures forall id :: id in items ==> Scan(items, q, e).items[id] == AfterScan(items, q, e, id)
  {
    if |q| > 0 {
      var id, rest := q[0], q[1..];
      DistinctTail(q);
      var it := items[id];
      var next := if it.done then items else items[id := ItemMatch(it, e).item];
      assert Alive(next, rest);
      ScanItems(next, rest, e);
      forall x | x in items
        ensures Scan(items, q, e).items[x] == AfterScan(items, q, e, x)
      {
        assert x in q <==> x == id || x in rest;
        if x != id {
          assert next[x] == items[x];
        }
      }
    }
  }

  /** `match_event_async` against its reference reading: on a queue without
      duplicates, the items kept are exactly the pending items that do not match, in
      order; the waiters resumed are exactly the pending items that match, in order,
      each with the event; the result is true iff at least one was resumed; and only
      the resumed items change. */
  lemma ScanMeaning(items: map<ItemId, Item>, q: seq<ItemId>, e: Event)
    requires Alive(items, q) && FilterQueues.Distinct(q)
    ensures Scan(items, q, e).kept == KeptRef(items, q, e)
    ensures Scan(items, q, e).resumed == WithEvent(HitsRef(items, q, e), e)
    ensures Scan(items, q, e).matched <==> |HitsRef(items, q, e)| > 0
    ensures forall id :: id in items ==> Scan(items, q, e).items[id] == AfterScan(items, q, e, id)
  {
    ScanMatched(items, q, e);
    ScanKept(items, q, e);
    ScanItems(items, q, e);
  }

  /** After the scan no done item is left in the queue, and every item left was
      there before. */
  lemma ScanKeepsPending(items: map<ItemId, Item>, q: seq<ItemId>, e: Event)
    requires Alive(items, q) && FilterQueues.Distinct(q)
    ensures forall x :: x in Scan(items, q, e).kept ==> x in q && !Scan(items, q, e).items[x].done
  {
    ScanMeaning(items, q, e);
  }

  lemma {:induction false} KeptDistinct(items: map<ItemId, Item>, q: seq<ItemId>, e: Event)
    requires Alive(items, q) && FilterQueues.Distinct(q)
    ensures FilterQueues.Distinct(KeptRef(items, q, e))
  {
    if |q| > 0 {
      DistinctTail(q);
      KeptDistinct(items, q[1..], e);
      var k := KeptRef(items, q[1..], e);
      assert q[0] !in k;
      assert forall j :: 0 < j < |k| + 1 ==> ([q[0]] + k)[j] == k[j - 1];
    }
  }

  lemma {:induction false} HitsDistinct(items: map<ItemId, Item>, q: seq<ItemId>, e: Event)
    requires Alive(items, q) && FilterQueues.Distinct(q)
    ensures FilterQueues.Distinct(HitsRef(items, q, e))
  {
    if |q| > 0 {
      DistinctTail(q);
      HitsDistinct(items, q[1..], e);
      var h := HitsRef(items, q[1..], e);
      assert q[0] !in h;
      assert forall j :: 0 < j < |h| + 1 ==> ([q[0]] + h)[j] == h[j - 1];
    }
  }

  /** The first half of `match` on an item that matches: the event is stored, before
      the done flag is raced for. */
  function Store(s: MatcherQueue, id: ItemId, e: Event): (r: MatcherQueue)
    requires id in s.items && id in s.queue && WellTyped(s.items[id])
    requires !s.items[id].done && Accepts(s.items[id], e)
  {
    s.(items := s.items[id := s.items[id].(event := Some(e))])
  }

  /** The second half: the same exchange as a cancel; the match reports true exactly
      when it won the exchange. */
  function Commit(s: MatcherQueue, id: ItemId): (r: (bool, MatcherQueue))
    requires id in s.items && id in s.queue
  {
    (!s.items[id].done, Cancel(s, id))
  }

  /** A match split by the two halves is the match of the item. */
  lemma StoreThenCommitIsMatch(s: MatcherQueue, id: ItemId, e: Event)
    requires id in s.items && id in s.queue && WellTyped(s.items[id])
    requires !s.items[id].done && Accepts(s.items[id], e)
    ensures Commit(Store(s, id, e), id).0 == ItemMatch(s.items[id], e).matched
    ensures Commit(Store(s, id, e), id).1.items[id] == ItemMatch(s.items[id], e).item
    ensures Commit(Store(s, id, e), id).1.log == s.log + [Resumption(id, Some(e))]
  {
  }

  /** A cancel that falls between the two halves wins the exchange: the cancelled
      waiter resumes with the matched event, and the match reports false, so the
      event is consumed although `match_event_async` does not count it. */
  lemma CancelBetweenStoreAndCommit(s: MatcherQueue, id: ItemId, e: Event)
    requires id in s.items && id in s.queue && WellTyped(s.items[id])
    requires !s.items[id].done && Accepts(s.items[id], e)
    ensures Cancel(Store(s, id, e), id).log == s.log + [Resumption(id, Some(e))]
    ensures !Commit(Cancel(Store(s, id, e), id), id).0
    ensures Commit(Cancel(Store(s, id, e), id), id).1 == Cancel(Store(s, id, e), id)
  {
  }

  /** A cancel that comes first resumes the waiter with no event; a match reaching
      the item afterwards reports false and resumes nobody. */
  lemma CancelBeforeMatch(s: MatcherQueue, id: ItemId, e: Event)
    requires id in s.items && id in s.queue && WellTyped(s.items[id])
    requires !s.items[id].done && s.items[id].event.None?
    ensures Cancel(s, id).log == s.log + [Resumption(id, None)]
    ensures !ItemMatch(Cancel(s, id).items[id], e).matched
    ensures !ItemMatch(Cancel(s, id).items[id], e).resumed
  {
  }

  predicate Logged(log: seq<Resumption>, id: ItemId)
  {
    exists k :: 0 <= k < |log| && log[k].item == id
  }

  predicate AtMostOnce(log: seq<Resumption>)
  {
    forall i, j :: 0 <= i < j < |log| ==> log[i].item != log[j].item
  }

  predicate Typed(items: map<ItemId, Item>)
  {
    forall id :: id in items ==> WellTyped(items[id])
  }

  /** The queue is a duplicate-free list of live items; each item's patterns fit its
      type, and any event stored in it passed them. */
  predicate ItemsInv(s: MatcherQueue)
  {
    && FilterQueues.Distinct(s.queue)
    && (forall j :: 0 <= j < |s.queue| ==> s.queue[j] in s.items)
    && Typed(s.items)
    && (forall id :: id in s.items && s.items[id].event.Some? ==> Accepts(s.items[id], s.items[id].event.value))
  }

  /** Each waiter is resumed at most once, an item is done exactly when its waiter
      was resumed, and any event a waiter resumed with passed its patterns. */
  predicate LogInv(s: MatcherQueue)
    requires ItemsInv(s)
  {
    && AtMostOnce(s.log)
    && (forall k :: 0 <= k < |s.log| ==> s.log[k].item in s.items)
    && (forall k :: 0 <= k < |s.log| && s.log[k].event.Some? ==>
          Accepts(s.items[s.log[k].item], s.log[k].event.value))
    && (forall id :: id in s.items ==> (s.items[id].done <==> Logged(s.log, id)))
  }

  predicate Inv(s: MatcherQueue)
  {
    ItemsInv(s) && LogInv(s)
  }

  lemma EmptyInv()
    ensures Inv(EmptyMatcherQueue)
  {
  }

  lemma EnqueueInv(s: MatcherQueue, id: ItemId, wanted: EventType, patterns: seq<Pattern>)
    requires Inv(s) && id !in s.items && WellTyped(NewItem(wanted, patterns))
    ensures Inv(Enqueue(s, id, wanted, patterns))
  {
    var r := Enqueue(s, id, wanted, patterns);
    assert forall j :: 0 <= j < |s.queue| ==> r.queue[j] == s.queue[j];
    assert ItemsInv(r);
    forall x | x in r.items
      ensures r.items[x].done <==> Logged(r.log, x)
    {
      if x == id {
        assert !Logged(s.log, x);
      }
    }
  }

  lemma CancelItemsInv(s: MatcherQueue, id: ItemId)
    requires ItemsInv(s) && id in s.items && id in s.queue
    ensures ItemsInv(Cancel(s, id))
  {
  }

  lemma CancelLogInv(s: MatcherQueue, id: ItemId)
    requires Inv(s) && id in s.items && id in s.queue
    ensures ItemsInv(Cancel(s, id)) && LogInv(Cancel(s, id))
  {
    CancelItemsInv(s, id);
    var r := Cancel(s, id);
    if !s.items[id].done {
      assert !Logged(s.log, id);
      assert r.log[|s.log|].item == id;
      assert forall k :: 0 <= k < |s.log| ==> r.log[k] == s.log[k];
      forall x | x in r.items
        ensures r.items[x].done <==> Logged(r.log, x)
      {
        if x == id {
          assert Logged(r.log, x);
        } else if Logged(r.log, x) {
          var k :| 0 <= k < |r.log| && r.log[k].item == x;
          assert k < |s.log|;
        }
      }
    }
  }

  /** A cancel keeps the invariant, and resumes the waiter exactly when it was not
      resumed before, with the event stored so far. */
  lemma CancelInv(s: MatcherQueue, id: ItemId)
    requires Inv(s) && id in s.items && id in s.queue
    ensures Inv(Cancel(s, id))
    ensures Logged(s.log, id) ==> Cancel(s, id).log == s.log
    ensures !Logged(s.log, id) ==> Cancel(s, id).log == s.log + [Resumption(id, s.items[id].event)]
  {
    CancelLogInv(s, id);
  }

  lemma StoreInv(s: MatcherQueue, id: ItemId, e: Event)
    requires Inv(s) && id in s.items && id in s.queue && WellTyped(s.items[id])
    requires !s.items[id].done && Accepts(s.items[id], e)
    ensures Inv(Store(s, id, e))
  {
    var r := Store(s, id, e);
    assert !Logged(s.log, id);
    assert forall k :: 0 <= k < |s.log| ==> s.log[k].item != id;
  }

  /** Whether an item accepts an event depends only on its type and patterns. */
  lemma AcceptsFields(a: Item, b: Item, e: Event)
    requires WellTyped(a) && a.wanted == b.wanted && a.patterns == b.patterns
    ensures WellTyped(b) && Accepts(a, e) == Accepts(b, e)
  {
  }

  lemma MatchEventItemsInv(s: MatcherQueue, e: Event)
    requires ItemsInv(s)
    ensures Alive(s.items, s.queue)
    ensures ItemsInv(MatchEvent(s, e).1)
  {
    var r := MatchEvent(s, e).1;
    ScanMeaning(s.items, s.queue, e);
    KeptDistinct(s.items, s.queue, e);
    forall id | id in r.items
      ensures WellTyped(r.items[id])
      ensures r.items[id].event.Some? ==> Accepts(r.items[id], r.items[id].event.value)
    {
      AcceptsFields(s.items[id], r.items[id], e);
      if r.items[id].event.Some? {
        AcceptsFields(s.items[id], r.items[id], r.items[id].event.value);
      }
    }
    forall j | 0 <= j < |r.queue|
      ensures r.queue[j] in r.items
    {
      assert r.queue[j] in KeptRef(s.items, s.queue, e);
    }
  }

  /** What a scan does to the state: the hits, pending items that accept the event,
      get it stored and become done, every other item is untouched, and the log
      grows by one resumption per hit. */
  ghost predicate HitsResumed(s: MatcherQueue, r: MatcherQueue, h: seq<ItemId>, e: Event)
  {
    && r.items.Keys == s.items.Keys
    && FilterQueues.Distinct(h)
    && (forall j :: 0 <= j < |h| ==>
          (h[j] in s.items && WellTyped(s.items[h[j]]) && !s.items[h[j]].done && Accepts(s.items[h[j]], e)
           && r.items[h[j]] == s.items[h[j]].(event := Some(e), done := true)))
    && (forall id :: id in s.items && id !in h ==> r.items[id] == s.items[id])
    && r.log == s.log + WithEvent(h, e)
  }

  lemma HitsResumedOnce(s: MatcherQueue, r: MatcherQueue, h: seq<ItemId>, e: Event)
    requires Inv(s) && HitsResumed(s, r, h, e)
    ensures AtMostOnce(r.log)
    ensures forall k :: 0 <= k < |r.log| ==> r.log[k].item in r.items
  {
    var n := |s.log|;
    assert forall k :: 0 <= k < n ==> r.log[k] == s.log[k];
    assert forall k :: n <= k < |r.log| ==> r.log[k].item == h[k - n];
    forall i, j | 0 <= i < j < |r.log|
      ensures r.log[i].item != r.log[j].item
    {
      if i < n && n <= j {
        assert !s.items[h[j - n]].done;
        assert !Logged(s.log, h[j - n]);
      }
    }
  }

  lemma HitsResumedEvents(s: MatcherQueue, r: MatcherQueue, h: seq<ItemId>, e: Event)
    requires forall id :: id in s.items ==> WellTyped(s.items[id])
    requires forall k :: 0 <= k < |s.log| ==> s.log[k].item in s.items
    requires forall k :: 0 <= k < |s.log| && s.log[k].event.Some? ==>
      Accepts(s.items[s.log[k].item], s.log[k].event.value)
    requires HitsResumed(s, r, h, e)
    ensures forall k :: 0 <= k < |r.log| ==> r.log[k].item in r.items && WellTyped(r.items[r.log[k].item])
    ensures forall k :: 0 <= k < |r.log| && r.log[k].event.Some? ==>
      Accepts(r.items[r.log[k].item], r.log[k].event.value)
  {
    var n := |s.log|;
    forall k | 0 <= k < |r.log|
      ensures r.log[k].item in r.items && WellTyped(r.items[r.log[k].item])
      ensures r.log[k].event.Some? ==> Accepts(r.items[r.log[k].item], r.log[k].event.value)
    {
      var id := r.log[k].item;
      if k < n {
        assert r.log[k] == s.log[k];
      } else {
        assert r.log[k] == Resumption(h[k - n], Some(e));
      }
      if r.log[k].event.Some? {
        AcceptsFields(s.items[id], r.items[id], r.log[k].event.value);
      }
    }
  }

  /** After the hits are appended, a waiter is logged iff it was before or is a hit. */
  lemma LoggedAppend(log: seq<Resumption>, h: seq<ItemId>, e: Event, id: ItemId)
    ensures Logged(log + WithEvent(h, e), id) <==> Logged(log, id) || id in h
  {
    var w := WithEvent(h, e);
    var r := log + w;
    var n := |log|;
    assert forall k :: 0 <= k < n ==> r[k] == log[k];
    assert forall k :: 0 <= k < |w| ==> r[n + k] == w[k] && w[k].item == h[k];
    if Logged(r, id) && !Logged(log, id) {
      var k :| 0 <= k < |r| && r[k].item == id;
      assert h[k - n] == id;
    }
    if Logged(log, id) {
      var k :| 0 <= k < n && log[k].item == id;
      assert r[k].item == id;
    }
    if id in h {
      var k :| 0 <= k < |h| && h[k] == id;
      assert r[n + k].item == id;
    }
  }

  lemma HitsResumedDone(s: MatcherQueue, r: MatcherQueue, h: seq<ItemId>, e: Event)
    requires forall id :: id in s.items ==> (s.items[id].done <==> Logged(s.log, id))
    requires HitsResumed(s, r, h, e)
    ensures forall id :: id in r.items ==> (r.items[id].done <==> Logged(r.log, id))
  {
    forall id | id in r.items
      ensures r.items[id].done <==> Logged(r.log, id)
    {
      LoggedAppend(s.log, h, e, id);
      if id in h {
        var k :| 0 <= k < |h| && h[k] == id;
      }
    }
  }

  lemma MatchEventResumesHits(s: MatcherQueue, e: Event)
    requires Inv(s)
    ensures Alive(s.items, s.queue)
    ensures HitsResumed(s, MatchEvent(s, e).1, HitsRef(s.items, s.queue, e), e)
  {
    var r := MatchEvent(s, e).1;
    ScanMeaning(s.items, s.queue, e);
    HitsDistinct(s.items, s.queue, e);
    var h := HitsRef(s.items, s.queue, e);
    forall j | 0 <= j < |h|
      ensures h[j] in s.items && WellTyped(s.items[h[j]]) && !s.items[h[j]].done && Accepts(s.items[h[j]], e)
      ensures r.items[h[j]] == s.items[h[j]].(event := Some(e), done := true)
    {
      assert h[j] in h;
    }
  }

  lemma MatchEventLogInv(s: MatcherQueue, e: Event)
    requires Inv(s)
    ensures Alive(s.items, s.queue)
    ensures ItemsInv(MatchEvent(s, e).1) && LogInv(MatchEvent(s, e).1)
  {
    MatchEventItemsInv(s, e);
    MatchEventResumesHits(s, e);
    var r, h := MatchEvent(s, e).1, HitsRef(s.items, s.queue, e);
    HitsResumedOnce(s, r, h, e);
    HitsResumedEvents(s, r, h, e);
    HitsResumedDone(s, r, h, e);
  }

  /** On an empty queue the scan reports false and changes nothing. */
  lemma MatchEventEmpty(s: MatcherQueue, e: Event)
    requires |s.queue| == 0
    ensures MatchEvent(s, e) == (false, s)
  {
    assert s.log + [] == s.log;
  }

  /** Every item the scan erases is done, and every item it keeps is pending. */
  lemma MatchEventQueue(s: MatcherQueue, e: Event)
    requires Alive(s.items, s.queue) && FilterQueues.Distinct(s.queue)
    ensures forall x :: x in MatchEvent(s, e).1.queue ==> x in s.queue && !MatchEvent(s, e).1.items[x].done
    ensures forall j :: 0 <= j < |s.queue| && s.queue[j] !in MatchEvent(s, e).1.queue ==>
      MatchEvent(s, e).1.items[s.queue[j]].done
  {
    ScanMeaning(s.items, s.queue, e);
    var r := MatchEvent(s, e).1;
    forall j | 0 <= j < |s.queue| && s.queue[j] !in r.queue
      ensures r.items[s.queue[j]].done
    {
      assert s.queue[j] !in KeptRef(s.items, s.queue, e);
    }
  }

  /** Offering an event keeps the invariant; it resumes each matching pending waiter
      once, in queue order, with the event; it leaves no done item in the queue, and
      every waiter whose item it erases has been resumed. */
  lemma MatchEventInv(s: MatcherQueue, e: Event)
    requires Inv(s)
    ensures Alive(s.items, s.queue)
    ensures Inv(MatchEvent(s, e).1)
    ensures MatchEvent(s, e).1.log == s.log + WithEvent(HitsRef(s.items, s.queue, e), e)
    ensures forall x :: x in MatchEvent(s, e).1.queue ==> x in s.queue && !MatchEvent(s, e).1.items[x].done
    ensures forall j :: 0 <= j < |s.queue| && s.queue[j] !in MatchEvent(s, e).1.queue ==>
      Logged(MatchEvent(s, e).1.log, s.queue[j])
  {
    MatchEventLogInv(s, e);
    MatchEventResumesHits(s, e);
    MatchEventQueue(s, e);
  }

  /** What can happen to the queue: a waiter enqueues a new item, an event is offered
      under the mutex, a waiter is cancelled, or a match concurrent with a cancel has
      stored its event but not yet raced for the flag. The match's second half is the
      same exchange as a cancel, so it needs no action of its own. */
  datatype Action =
    | Add(id: ItemId, wanted: EventType, patterns: seq<Pattern>)
    | Offer(event: Event)
    | CancelWaiter(waiter: ItemId)
    | StoreHalf(target: ItemId, stored: Event)

  predicate Enabled(s: MatcherQueue, a: Action)
  {
    match a
    case Add(id, wanted, patterns) => id !in s.items && WellTyped(NewItem(wanted, patterns))
    case Offer(_) => Alive(s.items, s.queue)
    case CancelWaiter(id) => id in s.items && id in s.queue
    case StoreHalf(id, e) =>
      id in s.items && id in s.queue && WellTyped(s.items[id]) && !s.items[id].done && Accepts(s.items[id], e)
  }

  function Step(s: MatcherQueue, a: Action): (r: MatcherQueue)
    requires Enabled(s, a)
  {
    match a
    case Add(id, wanted, patterns) => Enqueue(s, id, wanted, patterns)
    case Offer(e) => MatchEvent(s, e).1
    case CancelWaiter(id) => Cancel(s, id)
    case StoreHalf(id, e) => Store(s, id, e)
  }

  predicate Admissible(s: MatcherQueue, acts: seq<Action>)
    decreases |acts|
  {
    |acts| == 0 || (Enabled(s, acts[0]) && Admissible(Step(s, acts[0]), acts[1..]))
  }

  function Run(s: MatcherQueue, acts: seq<Action>): MatcherQueue
    requires Admissible(s, acts)
    decreases |acts|
  {
    if |acts| == 0 then s else Run(Step(s, acts[0]), acts[1..])
  }

  /** Every step keeps the invariant and only appends to the log. */
  lemma StepInv(s: MatcherQueue, a: Action)
    requires Inv(s) && Enabled(s, a)
    ensures Inv(Step(s, a)) && s.log <= Step(s, a).log
  {
    match a
    case Add(id, wanted, patterns) => EnqueueInv(s, id, wanted, patterns);
    case Offer(e) => MatchEventInv(s, e);
    case CancelWaiter(id) => CancelInv(s, id);
    case StoreHalf(id, e) => StoreInv(s, id, e);
  }

  lemma {:induction false} RunInv(s: MatcherQueue, acts: seq<Action>)
    requires Inv(s) && Admissible(s, acts)
    ensures Inv(Run(s, acts)) && s.log <= Run(s, acts).log
    decreases |acts|
  {
    if |acts| > 0 {
      StepInv(s, acts[0]);
      RunInv(Step(s, acts[0]), acts[1..]);
    }
  }

  /** From an empty queue, whatever interleaving of enqueues, offers, cancels and
      half-done matches: each waiter is resumed at most once, it is resumed exactly
      when its item is done, and the event it resumes with, if any, is of its type and
      matched all of its patterns. */
  lemma ResumedAtMostOnce(acts: seq<Action>)
    requires Admissible(EmptyMatcherQueue, acts)
    ensures AtMostOnce(Run(EmptyMatcherQueue, acts).log)
    ensures var r := Run(EmptyMatcherQueue, acts);
      forall id :: id in r.items ==> (r.items[id].done <==> Logged(r.log, id))
    ensures var r := Run(EmptyMatcherQueue, acts);
      forall k :: 0 <= k < |r.log| && r.log[k].event.Some? ==>
        && r.log[k].item in r.items
        && TypeOf(r.log[k].event.value) == r.items[r.log[k].item].wanted
        && AllApply(r.items[r.log[k].item].patterns, r.log[k].event.value)
        && forall i :: 0 <= i < |r.items[r.log[k].item].patterns| ==>
             Match(r.items[r.log[k].item].patterns[i], r.log[k].event.value)
  {
    EmptyInv();
    RunInv(EmptyMatcherQueue, acts);
    var r := Run(EmptyMatcherQueue, acts);
    forall k | 0 <= k < |r.log| && r.log[k].event.Some?
      ensures r.log[k].item in r.items
      ensures TypeOf(r.log[k].event.value) == r.items[r.log[k].item].wanted
      ensures AllApply(r.items[r.log[k].item].patterns, r.log[k].event.value)
      ensures forall i :: 0 <= i < |r.items[r.log[k].item].patterns| ==>
        Match(r.items[r.log[k].item].patterns[i], r.log[k].event.value)
    {
      AcceptsMeaning(r.items[r.log[k].item], r.log[k].event.value);
    }
  }
}
