/** A message as received: its source (id and time), an optional quote of an earlier
    message, and the content segments, read from the received message chain. */
module SentMessages {
  import opened Wrappers
  import opened Ids
  import opened Segments
  import opened Messages
  import J = JsonTree

  datatype Source = Source(id: MessageId, time: i32)

  datatype Quote = Quote(id: MessageId, sender: UserId, msg: Message)

  datatype SentMessage = SentMessage(source: Source, quote: Option<Quote>, content: Message)

  /** A default-constructed message: source id 0 and time 0, no quote, no content. */
  const DefaultSource: Source := Source(MessageId(0), 0)
  const DefaultSentMessage: SentMessage := SentMessage(DefaultSource, None, [])

  /** Sources compare field by field; quotes by id only; received messages by source
      only, whatever their quote and content. */
  predicate QuoteEq(a: Quote, b: Quote)
  {
    a.id == b.id
  }

  predicate SentMessageEq(a: SentMessage, b: SentMessage)
  {
    a.source == b.source
  }

  lemma SentMessageEqIsEquivalence(a: SentMessage, b: SentMessage, c: SentMessage)
    ensures SentMessageEq(a, a)
    ensures SentMessageEq(a, b) ==> SentMessageEq(b, a)
    ensures SentMessageEq(a, b) && SentMessageEq(b, c) ==> SentMessageEq(a, c)
  {
  }

  /** Two received messages with the same source are equal even when their quotes and
      content differ; two quotes with the same id are equal whatever they quote. */
  lemma EqualityIgnoresContent(s: Source, q: Option<Quote>, m1: Message, m2: Message, sender: UserId)
    ensures SentMessageEq(SentMessage(s, q, m1), SentMessage(s, None, m2))
    ensures QuoteEq(Quote(s.id, sender, m1), Quote(s.id, DefaultUserId, m2))
  {
  }

  /** `Source::from_json`: "id" and "time", both narrowed to 32 bits. */
  function SourceFromJson(j: J.Json): (r: Result<Source>)
    ensures r.Ok? <==> J.GetInt32(J.Lookup(j, "id")).Ok? && J.GetInt32(J.Lookup(j, "time")).Ok?
    ensures r.Ok? ==> r.value.id.id == J.GetInt32(J.Lookup(j, "id")).value
    ensures r.Ok? ==> r.value.time == J.GetInt32(J.Lookup(j, "time")).value
  {
    var id :- J.GetInt32(J.Lookup(j, "id"));
    var time :- J.GetInt32(J.Lookup(j, "time"));
    Ok(Source(MessageId(id), time))
  }

  /** `Quote::from_json`: "id", "senderId" and the quoted chain under "origin", which is
      read as a message (so adjacent plain text in it is merged). */
  function QuoteFromJson(j: J.Json): (r: Result<Quote>)
    ensures r.Ok? <==> (J.GetInt32(J.Lookup(j, "id")).Ok? && J.GetInt64(J.Lookup(j, "senderId")).Ok?
      && J.Lookup(j, "origin").Ok? && MessageFromJson(J.Lookup(j, "origin").value).Ok?)
    ensures r.Ok? ==> (J.Lookup(j, "origin").Ok?
      && MessageFromJson(J.Lookup(j, "origin").value) == Ok(r.value.msg))
    ensures r.Ok? ==> J.GetInt32(J.Lookup(j, "id")) == Ok(r.value.id.id)
    ensures r.Ok? ==> J.GetInt64(J.Lookup(j, "senderId")) == Ok(r.value.sender.id)
  {
    var id :- J.GetInt32(J.Lookup(j, "id"));
    var sender :- J.GetInt64(J.Lookup(j, "senderId"));
    var origin :- J.Lookup(j, "origin");
    var msg :- MessageFromJson(origin);
    Ok(Quote(MessageId(id), UserId(sender), msg))
  }

  /** What one element of the chain contributes. */
  datatype Item = SourceItem(source: Source) | QuoteItem(quote: Quote) | SegmentItem(segment: Segment)

  /** One element of the chain, by its "type": "Source", "Quote", or else a segment. */
  function ReadItem(e: J.Json): (r: Result<Item>)
    ensures r.Ok? <==> (J.GetString(J.Lookup(e, "type")).Ok?
      && var name := J.GetString(J.Lookup(e, "type")).value;
      if name == "Source" then SourceFromJson(e).Ok?
      else if name == "Quote" then QuoteFromJson(e).Ok?
      else SegmentFromJson(e).Ok?)
    ensures r.Ok? ==> J.GetString(J.Lookup(e, "type")).Ok?
    ensures r.Ok? ==> (r.value.SourceItem? <==> J.GetString(J.Lookup(e, "type")) == Ok("Source"))
    ensures r.Ok? ==> (r.value.QuoteItem? <==> J.GetString(J.Lookup(e, "type")) == Ok("Quote"))
    ensures r.Ok? && r.value.SourceItem? ==> SourceFromJson(e) == Ok(r.value.source)
    ensures r.Ok? && r.value.QuoteItem? ==> QuoteFromJson(e) == Ok(r.value.quote)
    ensures r.Ok? && r.value.SegmentItem? ==> SegmentFromJson(e) == Ok(r.value.segment)
  {
    var name :- J.GetString(J.Lookup(e, "type"));
    if name == "Source" then
      var s :- SourceFromJson(e);
      Ok(SourceItem(s))
    else if name == "Quote" then
      var q :- QuoteFromJson(e);
      Ok(QuoteItem(q))
    else
      var seg :- SegmentFromJson(e);
      Ok(SegmentItem(seg))
  }

  /** A source replaces the source, a quote replaces the quote, a segment is appended
      without merging. */
  function Apply(acc: SentMessage, item: Item): SentMessage
  {
    match item
    case SourceItem(s) => acc.(source := s)
    case QuoteItem(q) => acc.(quote := Some(q))
    case SegmentItem(seg) => acc.(content := AppendSegment(acc.content, seg))
  }

  function ApplyAll(items: seq<Item>): SentMessage
  {
    if |items| == 0 then DefaultSentMessage else Apply(ApplyAll(items[..|items| - 1]), items[|items| - 1])
  }

  /** `SentMessage::from_json`: the chain must be an array; its elements are read in
      order, and the first one that cannot be read is the error. */
  function SentMessageFromJson(j: J.Json): Result<SentMessage>
  {
    if !j.JArr? then Fail(IncorrectType)
    else
      var items :- J.ConvertAll(j.elems, ReadItem);
      Ok(ApplyAll(items))
  }

  /** Position k holds a source item and no later position does. */
  predicate LastSourceAt(items: seq<Item>, k: int)
  {
    0 <= k < |items| && items[k].SourceItem? && forall k' :: k < k' < |items| ==> !items[k'].SourceItem?
  }

  /** Position k holds a quote item and no later position does. */
  predicate LastQuoteAt(items: seq<Item>, k: int)
  {
    0 <= k < |items| && items[k].QuoteItem? && forall k' :: k < k' < |items| ==> !items[k'].QuoteItem?
  }

  /** The reference reading: the last source, the last quote, and the segments in
      order. */
  function LastSource(items: seq<Item>): (r: Option<Source>)
    ensures r.Some? <==> exists k :: 0 <= k < |items| && items[k].SourceItem?
    ensures r.Some? ==> exists k :: LastSourceAt(items, k) && items[k].source == r.value
  {
    if |items| == 0 then None
    else
      var n := |items| - 1;
      if items[n].SourceItem? then
        assert LastSourceAt(items, n);
        Some(items[n].source)
      else
        var r := LastSource(items[..n]);
        assert forall k :: 0 <= k < n ==> items[..n][k] == items[k];
        assert forall k :: LastSourceAt(items[..n], k) ==> LastSourceAt(items, k);
        r
  }

  function LastQuote(items: seq<Item>): (r: Option<Quote>)
    ensures r.Some? <==> exists k :: 0 <= k < |items| && items[k].QuoteItem?
    ensures r.Some? ==> exists k :: LastQuoteAt(items, k) && items[k].quote == r.value
  {
    if |items| == 0 then None
    else
      var n := |items| - 1;
      if items[n].QuoteItem? then
        assert LastQuoteAt(items, n);
        Some(items[n].quote)
      else
        var r := LastQuote(items[..n]);
        assert forall k :: 0 <= k < n ==> items[..n][k] == items[k];
        assert forall k :: LastQuoteAt(items[..n], k) ==> LastQuoteAt(items, k);
        r
  }

  function SegmentsOf(items: seq<Item>): (r: Message)
    ensures |r| <= |items|
  {
    if |items| == 0 then []
    else
      var last := items[|items| - 1];
      SegmentsOf(items[..|items| - 1]) + (if last.SegmentItem? then [last.segment] else [])
  }

  /** Applying the items in order gives the reference reading. */
  lemma {:induction false} ApplyAllMeaning(items: seq<Item>)
    ensures ApplyAll(items).source == LastSource(items).GetOr(DefaultSource)
    ensures ApplyAll(items).quote == LastQuote(items)
    ensures ApplyAll(items).content == SegmentsOf(items)
  {
    if |items| > 0 {
      ApplyAllMeaning(items[..|items| - 1]);
    }
  }

  /** Every segment item lands in the content, one segment each, so adjacent plain
      text stays unmerged. */
  lemma {:induction false} SegmentsOfCount(items: seq<Item>)
    ensures |SegmentsOf(items)| == |set k | 0 <= k < |items| && items[k].SegmentItem?|
  {
    if |items| > 0 {
      var n := |items| - 1;
      SegmentsOfCount(items[..n]);
      var before := set k | 0 <= k < n && items[..n][k].SegmentItem?;
      var all := set k | 0 <= k < |items| && items[k].SegmentItem?;
      assert before == set k | 0 <= k < n && items[k].SegmentItem?;
      if items[n].SegmentItem? {
        assert all == before + {n};
      } else {
        assert all == before;
      }
    }
  }

  lemma ApplyAllSnoc(items: seq<Item>, item: Item)
    ensures ApplyAll(items + [item]) == Apply(ApplyAll(items), item)
  {
    assert (items + [item])[..|items|] == items;
  }

  /** Loop form of `SentMessage::from_json`, visiting the elements in order. */
  method ReadSentMessage(j: J.Json) returns (r: Result<SentMessage>)
    ensures r == SentMessageFromJson(j)
  {
    if !j.JArr? {
      return Fail(IncorrectType);
    }
    var acc := DefaultSentMessage;
    ghost var items: seq<Item> := [];
    var i := 0;
    while i < |j.elems|
      invariant 0 <= i <= |j.elems|
      invariant J.ConvertAll(j.elems[..i], ReadItem) == Ok(items)
      invariant acc == ApplyAll(items)
    {
      var item := ReadItem(j.elems[i]);
      J.ConvertAllStep(j.elems, i, ReadItem, items);
      if item.Fail? {
        J.ConvertAllPrefixFails(j.elems, i + 1, ReadItem);
        return Fail(item.error);
      }
      ApplyAllSnoc(items, item.value);
      acc := Apply(acc, item.value);
      items := items + [item.value];
      i := i + 1;
    }
    assert j.elems[..i] == j.elems;
    return Ok(acc);
  }
}
