/** The earlier revision of the pattern matcher queue: the item's done flag exists but
    is never set, there is no cancellation, and a match records a pointer to the event
    and resumes the waiter directly. */
module AwaiterQueues {
  import opened Wrappers
  import opened EventNames
  import opened Events
  import opened Patterns
  import FilterQueues
  import opened MatcherQueues

  /** `do_match` (and `match`, which only delegates to it): on a match the event is
      recorded in `ev_` and the waiter is resumed; the done flag is left alone. */
  function DoMatch(it: Item, e: Event): (r: MatchOutcome)
    requires WellTyped(it)
    ensures r.matched == r.resumed
    ensures r.matched <==> Accepts(it, e)
    ensures r.item.done == it.done && r.item.wanted == it.wanted && r.item.patterns == it.patterns
    ensures !r.matched ==> r.item == it
    ensures r.matched ==> r.item.event == Some(e)
  {
    if Accepts(it, e) then MatchOutcome(true, it.(event := Some(e)), true)
    else MatchOutcome(false, it, false)
  }

  /** `async_match_event`: the same `erase_if` as the later revision, with the old
      `match`. */
  function OldScan(items: map<ItemId, Item>, q: seq<ItemId>, e: Event): (r: Scanned)
    requires Alive(items, q)
    ensures r.items.Keys == items.Keys
    ensures forall id :: id in items ==> (r.items[id].wanted == items[id].wanted
      && r.items[id].patterns == items[id].patterns && r.items[id].done == items[id].done)
  {
    if |q| == 0 then Scanned(false, [], items, [])
    else
      var id := q[0];
      var it := items[id];
      if it.done then
        OldScan(items, q[1..], e)
      else
        var m := DoMatch(it, e);
        var rest := OldScan(items[id := m.item], q[1..], e);
        if m.matched then Scanned(true, rest.kept, rest.items, [Resumption(id, Some(e))] + rest.resumed)
        else Scanned(rest.matched, [id] + rest.kept, rest.items, rest.resumed)
  }

  /** No item in the queue is done; in this revision that always holds. */
  predicate NoneDone(items: map<ItemId, Item>, q: seq<ItemId>)
    requires Alive(items, q)
  {
    forall j :: 0 <= j < |q| ==> !items[q[j]].done
  }

  /** With no item done, the old scan keeps exactly the items that do not match, in
      order, resumes exactly the ones that do, in order, each with the event, and
      reports true iff it resumed one. The same reference readings describe both
      revisions. */
  lemma {:induction false} OldScanMeaning(items: map<ItemId, Item>, q: seq<ItemId>, e: Event)
    requires Alive(items, q) && NoneDone(items, q) && FilterQueues.Distinct(q)
    ensures OldScan(items, q, e).kept == KeptRef(items, q, e)
    ensures OldScan(items, q, e).resumed == WithEvent(HitsRef(items, q, e), e)
    ensures OldScan(items, q, e).matched <==> |HitsRef(items, q, e)| > 0
  {
    if |q| > 0 {
      var id, rest := q[0], q[1..];
      DistinctTail(q);
      var next := items[id := DoMatch(items[id], e).item];
      RefFrame(items, next, rest, e);
      assert NoneDone(next, rest);
      OldScanMeaning(next, rest, e);
      var h := HitsRef(items, rest, e);
      assert WithEvent([id] + h, e) == [Resumption(id, Some(e))] + WithEvent(h, e);
    }
  }

  /** Without cancellation the two revisions agree: on a queue with no done item they
      report the same result, keep the same items and resume the same waiters with
      the same event. */
  lemma RevisionsAgreeWithoutCancel(items: map<ItemId, Item>, q: seq<ItemId>, e: Event)
    requires Alive(items, q) && NoneDone(items, q) && FilterQueues.Distinct(q)
    ensures OldScan(items, q, e).matched == Scan(items, q, e).matched
    ensures OldScan(items, q, e).kept == Scan(items, q, e).kept
    ensures OldScan(items, q, e).resumed == Scan(items, q, e).resumed
  {
    OldScanMeaning(items, q, e);
    ScanMeaning(items, q, e);
  }

  /** The items, the queue, and the resumptions so far. */
  function OldMatchEvent(s: MatcherQueue, e: Event): (r: (bool, MatcherQueue))
    requires Alive(s.items, s.queue)
  {
    var x := OldScan(s.items, s.queue, e);
    (x.matched, MatcherQueue(x.items, x.kept, s.log + x.resumed))
  }

  /** The invariant of this revision: the queue is a duplicate-free list of live,
      never-done items; a waiter is resumed at most once, and exactly when its item
      has left the queue; and the event it resumed with passed its patterns. */
  predicate OldInv(s: MatcherQueue)
  {
    && ItemsInv(s)
    && (forall id :: id in s.items ==> !s.items[id].done)
    && AtMostOnce(s.log)
    && (forall k :: 0 <= k < |s.log| ==> s.log[k].item in s.items && s.log[k].event.Some?)
    && (forall k :: 0 <= k < |s.log| ==> Accepts(s.items[s.log[k].item], s.log[k].event.value))
    && (forall id :: id in s.items ==> (id in s.queue <==> !Logged(s.log, id)))
  }

  lemma OldEnqueueInv(s: MatcherQueue, id: ItemId, wanted: EventType, patterns: seq<Pattern>)
    requires OldInv(s) && id !in s.items && WellTyped(NewItem(wanted, patterns))
    ensures OldInv(Enqueue(s, id, wanted, patterns))
  {
    var r := Enqueue(s, id, wanted, patterns);
    assert forall j :: 0 <= j < |s.queue| ==> r.queue[j] == s.queue[j];
    assert ItemsInv(r);
    forall x | x in r.items
      ensures x in r.queue <==> !Logged(r.log, x)
    {
      if x == id {
        assert !Logged(s.log, x);
      }
    }
  }

  /** The state of one item after the old scan: a pending item that matches has the
      event recorded; every other item is as it was. */
  function AfterOldScan(items: map<ItemId, Item>, q: seq<ItemId>, e: Event, id: ItemId): Item
    requires Alive(items, q) && id in items
  {
    if id in q && !items[id].done && WellTyped(items[id]) && Accepts(items[id], e)
    then items[id].(event := Some(e)) else items[id]
  }

  lemma {:induction false} OldScanItems(items: map<ItemId, Item>, q: seq<ItemId>, e: Event)
    requires Alive(items, q) && FilterQueues.Distinct(q)
    ensures forall id :: id in items ==> OldScan(items, q, e).items[id] == AfterOldScan(items, q, e, id)
  {
    if |q| > 0 {
      var id, rest := q[0], q[1..];
      DistinctTail(q);
      var it := items[id];
      var next := if it.done then items else items[id := DoMatch(it, e).item];
      assert Alive(next, rest);
      OldScanItems(next, rest, e);
      forall x | x in items
        ensures OldScan(items, q, e).items[x] == AfterOldScan(items, q, e, x)
      {
        assert x in q <==> x == id || x in rest;
        if x != id {
          assert next[x] == items[x];
        }
      }
    }
  }

  /** What the old scan does to the items: the matching items, all in the queue, get
      the event recorded, and the rest are untouched. */
  ghost predicate OldHitsItems(s: MatcherQueue, r: MatcherQueue, h: seq<ItemId>, e: Event)
    requires Typed(s.items)
  {
    && r.items.Keys == s.items.Keys
    && (forall j :: 0 <= j < |h| ==>
          (h[j] in s.queue && h[j] in s.items && Accepts(s.items[h[j]], e)
           && r.items[h[j]] == s.items[h[j]].(event := Some(e))))
    && (forall id :: id in s.items && id !in h ==> r.items[id] == s.items[id])
  }

  /** What it does to the queue and the log: every queued item that matches is among
      the hits, the queue keeps exactly the others, and the log grows by one resumption
      per hit. */
  ghost predicate OldHitsQueue(s: MatcherQueue, r: MatcherQueue, h: seq<ItemId>, e: Event)
    requires Alive(s.items, s.queue)
  {
    && FilterQueues.Distinct(h)
    && (forall id :: id in s.queue && Accepts(s.items[id], e) ==> id in h)
    && (forall x :: x in r.queue <==> x in s.queue && !Accepts(s.items[x], e))
    && FilterQueues.Distinct(r.queue)
    && r.log == s.log + WithEvent(h, e)
  }

  lemma OldMatchEventItems(s: MatcherQueue, e: Event)
    requires Typed(s.items) && Alive(s.items, s.queue) && FilterQueues.Distinct(s.queue)
    ensures OldHitsItems(s, OldMatchEvent(s, e).1, HitsRef(s.items, s.queue, e), e)
  {
    var r := OldMatchEvent(s, e).1;
    OldScanItems(s.items, s.queue, e);
    var h := HitsRef(s.items, s.queue, e);
    forall j | 0 <= j < |h|
      ensures h[j] in s.queue && h[j] in s.items && Accepts(s.items[h[j]], e)
      ensures r.items[h[j]] == s.items[h[j]].(event := Some(e))
    {
      assert h[j] in h;
      assert r.items[h[j]] == AfterOldScan(s.items, s.queue, e, h[j]);
    }
    forall id | id in s.items && id !in h
      ensures r.items[id] == s.items[id]
    {
      assert r.items[id] == AfterOldScan(s.items, s.queue, e, id);
      if id in s.queue {
        var j :| 0 <= j < |s.queue| && s.queue[j] == id;
      }
    }
  }

  lemma OldMatchEventQueue(s: MatcherQueue, e: Event)
    requires Alive(s.items, s.queue) && NoneDone(s.items, s.queue) && FilterQueues.Distinct(s.queue)
    ensures OldHitsQueue(s, OldMatchEvent(s, e).1, HitsRef(s.items, s.queue, e), e)
  {
    OldScanMeaning(s.items, s.queue, e);
    KeptDistinct(s.items, s.queue, e);
    HitsDistinct(s.items, s.queue, e);
    var h := HitsRef(s.items, s.queue, e);
    forall id | id in s.queue && Accepts(s.items[id], e)
      ensures id in h
    {
      var j :| 0 <= j < |s.queue| && s.queue[j] == id;
    }
    forall x | x in s.queue && !Accepts(s.items[x], e)
      ensures x in KeptRef(s.items, s.queue, e)
    {
      var j :| 0 <= j < |s.queue| && s.queue[j] == x;
    }
  }

  lemma OldHitsItemsInv(s: MatcherQueue, r: MatcherQueue, h: seq<ItemId>, e: Event)
    requires ItemsInv(s) && (forall id :: id in s.items ==> !s.items[id].done)
    requires OldHitsItems(s, r, h, e) && FilterQueues.Distinct(r.queue)
    requires forall x :: x in r.queue ==> x in s.queue
    ensures ItemsInv(r) && forall id :: id in r.items ==> !r.items[id].done
  {
    forall j | 0 <= j < |r.queue|
      ensures r.queue[j] in r.items
    {
      assert r.queue[j] in r.queue;
    }
    forall id | id in r.items
      ensures WellTyped(r.items[id]) && !r.items[id].done
      ensures r.items[id].event.Some? ==> Accepts(r.items[id], r.items[id].event.value)
    {
      if r.items[id].event.Some? {
        AcceptsFields(s.items[id], r.items[id], r.items[id].event.value);
      }
    }
  }

  lemma OldHitsOnce(s: MatcherQueue, r: MatcherQueue, h: seq<ItemId>, e: Event)
    requires AtMostOnce(s.log) && FilterQueues.Distinct(h)
    requires forall j :: 0 <= j < |h| ==> h[j] in s.queue
    requires forall k :: 0 <= k < |s.log| ==> s.log[k].item !in s.queue
    requires r.log == s.log + WithEvent(h, e)
    ensures AtMostOnce(r.log)
  {
    var n := |s.log|;
    assert forall k :: 0 <= k < n ==> r.log[k] == s.log[k];
    assert forall k :: n <= k < |r.log| ==> r.log[k].item == h[k - n];
    forall i, j | 0 <= i < j < |r.log|
      ensures r.log[i].item != r.log[j].item
    {
      if i < n && n <= j {
        assert h[j - n] in s.queue;
      }
    }
  }

  lemma OldHitsEvents(s: MatcherQueue, r: MatcherQueue, h: seq<ItemId>, e: Event)
    requires Typed(s.items) && OldHitsItems(s, r, h, e) && r.log == s.log + WithEvent(h, e)
    requires forall k :: 0 <= k < |s.log| ==> s.log[k].item in s.items && s.log[k].event.Some?
    requires forall k :: 0 <= k < |s.log| ==> Accepts(s.items[s.log[k].item], s.log[k].event.value)
    ensures forall k :: 0 <= k < |r.log| ==> r.log[k].item in r.items && r.log[k].event.Some?
    ensures forall k :: 0 <= k < |r.log| ==> Accepts(r.items[r.log[k].item], r.log[k].event.value)
  {
    var n := |s.log|;
    forall k | 0 <= k < |r.log|
      ensures r.log[k].item in r.items && r.log[k].event.Some?
      ensures Accepts(r.items[r.log[k].item], r.log[k].event.value)
    {
      if k < n {
        assert r.log[k] == s.log[k];
      } else {
        assert r.log[k] == Resumption(h[k - n], Some(e));
      }
      var id := r.log[k].item;
      AcceptsFields(s.items[id], r.items[id], r.log[k].event.value);
    }
  }

  lemma OldHitsQueued(s: MatcherQueue, r: MatcherQueue, h: seq<ItemId>, e: Event)
    requires Typed(s.items) && Alive(s.items, s.queue) && OldHitsItems(s, r, h, e) && OldHitsQueue(s, r, h, e)
    requires forall id :: id in s.items ==> (id in s.queue <==> !Logged(s.log, id))
    ensures forall id :: id in r.items ==> (id in r.queue <==> !Logged(r.log, id))
  {
    forall id | id in r.items
      ensures id in r.queue <==> !Logged(r.log, id)
    {
      LoggedAppend(s.log, h, e, id);
      if id in h {
        var k :| 0 <= k < |h| && h[k] == id;
      }
    }
  }

  lemma LoggedNotQueued(s: MatcherQueue)
    requires forall id :: id in s.items ==> (id in s.queue <==> !Logged(s.log, id))
    requires forall k :: 0 <= k < |s.log| ==> s.log[k].item in s.items
    ensures forall k :: 0 <= k < |s.log| ==> s.log[k].item !in s.queue
  {
    forall k | 0 <= k < |s.log|
      ensures s.log[k].item !in s.queue
    {
      assert Logged(s.log, s.log[k].item);
    }
  }

  lemma OldMatchEventInv(s: MatcherQueue, e: Event)
    requires OldInv(s)
    ensures Alive(s.items, s.queue)
    ensures OldInv(OldMatchEvent(s, e).1)
    ensures OldMatchEvent(s, e).1.log == s.log + WithEvent(HitsRef(s.items, s.queue, e), e)
  {
    assert Alive(s.items, s.queue) && NoneDone(s.items, s.queue);
    OldMatchEventItems(s, e);
    OldMatchEventQueue(s, e);
    var r, h := OldMatchEvent(s, e).1, HitsRef(s.items, s.queue, e);
    OldHitsItemsInv(s, r, h, e);
    LoggedNotQueued(s);
    OldHitsOnce(s, r, h, e);
    OldHitsEvents(s, r, h, e);
    OldHitsQueued(s, r, h, e);
  }

  datatype OldAction = Await(id: ItemId, wanted: EventType, patterns: seq<Pattern>) | Deliver(event: Event)

  predicate OldEnabled(s: MatcherQueue, a: OldAction)
  {
    match a
    case Await(id, wanted, patterns) => id !in s.items && WellTyped(NewItem(wanted, patterns))
    case Deliver(_) => Alive(s.items, s.queue)
  }

  function OldStep(s: MatcherQueue, a: OldAction): (r: MatcherQueue)
    requires OldEnabled(s, a)
  {
    match a
    case Await(id, wanted, patterns) => Enqueue(s, id, wanted, patterns)
    case Deliver(e) => OldMatchEvent(s, e).1
  }

  predicate OldAdmissible(s: MatcherQueue, acts: seq<OldAction>)
    decreases |acts|
  {
    |acts| == 0 || (OldEnabled(s, acts[0]) && OldAdmissible(OldStep(s, acts[0]), acts[1..]))
  }

  function OldRun(s: MatcherQueue, acts: seq<OldAction>): MatcherQueue
    requires OldAdmissible(s, acts)
    decreases |acts|
  {
    if |acts| == 0 then s else OldRun(OldStep(s, acts[0]), acts[1..])
  }

  lemma OldStepInv(s: MatcherQueue, a: OldAction)
    requires OldInv(s) && OldEnabled(s, a)
    ensures OldInv(OldStep(s, a)) && s.log <= OldStep(s, a).log
  {
    match a
    case Await(id, wanted, patterns) => OldEnqueueInv(s, id, wanted, patterns);
    case Deliver(e) => OldMatchEventInv(s, e);
  }

  lemma {:induction false} OldRunInv(s: MatcherQueue, acts: seq<OldAction>)
    requires OldInv(s) && OldAdmissible(s, acts)
    ensures OldInv(OldRun(s, acts)) && s.log <= OldRun(s, acts).log
    decreases |acts|
  {
    if |acts| > 0 {
      OldStepInv(s, acts[0]);
      OldRunInv(OldStep(s, acts[0]), acts[1..]);
    }
  }

  /** From an empty queue, after any sequence of awaits and deliveries: `done()` is
      false for every item, so only matched items ever leave the queue; every waiter
      is resumed at most once, exactly when its item has left the queue, and always
      with an event of its type that all its patterns matched. */
  lemma OldResumedAtMostOnce(acts: seq<OldAction>)
    requires OldAdmissible(EmptyMatcherQueue, acts)
    ensures var r := OldRun(EmptyMatcherQueue, acts);
      && AtMostOnce(r.log)
      && (forall id :: id in r.items ==> !r.items[id].done && (id in r.queue <==> !Logged(r.log, id)))
      && forall k :: 0 <= k < |r.log| ==>
        && r.log[k].item in r.items && r.log[k].event.Some?
        && TypeOf(r.log[k].event.value) == r.items[r.log[k].item].wanted
  {
    OldRunInv(EmptyMatcherQueue, acts);
  }
}
