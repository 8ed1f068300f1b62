/** A forwarded message node: who sent it, when, under what name, and its content. */
module Forwarded {
  import opened Wrappers
  import opened Ids
  import opened Segments
  import opened Messages
  import opened JsonTree
  import opened JsonWriter

  datatype ForwardedMessage = ForwardedMessage(sender: UserId, time: i32, senderName: string, content: Message)

  /** The defaulted comparison: every field, the content segment by segment. */
  predicate ForwardedEq(a: ForwardedMessage, b: ForwardedMessage)
  {
    a.sender == b.sender && a.time == b.time && a.senderName == b.senderName && MessageEq(a.content, b.content)
  }

  /** `format_as_json`: the four keys in the order senderId, time, senderName,
      messageChain; the sender as its raw number, the content as a segment array. */
  function ForwardedWritable(f: ForwardedMessage): (w: Writable)
    ensures w.WObj? && |w.entries| == 4
    ensures w.entries[0] == Entry("senderId", WInt(f.sender.id as int))
    ensures w.entries[1] == Entry("time", WInt(f.time as int))
    ensures w.entries[2] == Entry("senderName", WStr(f.senderName))
    ensures w.entries[3] == Entry("messageChain", MessageWritable(f.content))
  {
    WObj([Entry("senderId", WInt(f.sender.id as int)),
          Entry("time", WInt(f.time as int)),
          Entry("senderName", WStr(f.senderName)),
          Entry("messageChain", MessageWritable(f.content))])
  }

  function ForwardedJson(f: ForwardedMessage): (t: string)
    ensures t == Write(ForwardedWritable(f))
  {
    ObjectJson(ForwardedWritable(f).entries)
  }

  /** `ForwardedMessage::from_json`: the same four keys; the chain goes through the
      message reader. */
  function ForwardedFromJson(j: Json): (r: Result<ForwardedMessage>)
    ensures r.Ok? <==> (GetInt64(Lookup(j, "senderId")).Ok? && GetInt32(Lookup(j, "time")).Ok?
      && GetString(Lookup(j, "senderName")).Ok?
      && Lookup(j, "messageChain").Ok? && MessageFromJson(Lookup(j, "messageChain").value).Ok?)
    ensures r.Ok? ==> GetInt64(Lookup(j, "senderId")) == Ok(r.value.sender.id)
    ensures r.Ok? ==> GetInt32(Lookup(j, "time")) == Ok(r.value.time)
    ensures r.Ok? ==> GetString(Lookup(j, "senderName")) == Ok(r.value.senderName)
    ensures r.Ok? ==> (Lookup(j, "messageChain").Ok?
      && MessageFromJson(Lookup(j, "messageChain").value) == Ok(r.value.content))
  {
    var sender :- GetInt64(Lookup(j, "senderId"));
    var time :- GetInt32(Lookup(j, "time"));
    var name :- GetString(Lookup(j, "senderName"));
    var chain :- Lookup(j, "messageChain");
    var content :- MessageFromJson(chain);
    Ok(ForwardedMessage(UserId(sender), time, name, content))
  }

  /** The document a written forwarded message denotes. */
  function ForwardedTree(f: ForwardedMessage): Json
  {
    JObj([Field("senderId", JInt(f.sender.id as int)),
          Field("time", JInt(f.time as int)),
          Field("senderName", JStr(f.senderName)),
          Field("messageChain", ToTree(MessageWritable(f.content)))])
  }

  lemma ForwardedDenotes(f: ForwardedMessage)
    ensures ToTree(ForwardedWritable(f)) == ForwardedTree(f)
  {
    var fs := ToFields(ForwardedWritable(f).entries);
    var gs := ForwardedTree(f).fields;
    assert fs[0] == gs[0];
    assert fs[1] == gs[1];
    assert fs[2] == gs[2];
    assert fs[3] == gs[3];
    assert fs == gs;
  }

  lemma ReadForwardedScalars(f: ForwardedMessage)
    ensures GetInt64(Lookup(ForwardedTree(f), "senderId")) == Ok(f.sender.id)
    ensures GetInt32(Lookup(ForwardedTree(f), "time")) == Ok(f.time)
    ensures GetString(Lookup(ForwardedTree(f), "senderName")) == Ok(f.senderName)
  {
    var fs := ForwardedTree(f).fields;
    LookupAt(fs, 0, "senderId");
    LookupAt(fs, 1, "time");
    LookupAt(fs, 2, "senderName");
  }

  lemma ReadForwardedChain(f: ForwardedMessage)
    ensures Lookup(ForwardedTree(f), "messageChain") == Ok(ToTree(MessageWritable(f.content)))
  {
    LookupAt(ForwardedTree(f).fields, 3, "messageChain");
  }

  /** A written forwarded message whose segments each read back exactly is read back
      with every field kept and its content merged as the message reader merges it. */
  lemma ForwardedRoundTrip(f: ForwardedMessage)
    requires forall i :: 0 <= i < |f.content| ==> RoundTripsExactly(f.content[i])
    ensures ForwardedFromJson(ToTree(ForwardedWritable(f))) == Ok(f.(content := Collapse(f.content)))
  {
    ForwardedDenotes(f);
    ReadForwardedScalars(f);
    ReadForwardedChain(f);
    MessageRoundTrip(f.content);
  }

  /** The merge is visible: two plain pieces come back as one, so the read-back value
      differs from the original under the defaulted comparison. */
  lemma ForwardedRoundTripMerges(sender: UserId, time: i32, name: string, a: string, b: string)
    ensures var f := ForwardedMessage(sender, time, name, [Plain(a), Plain(b)]);
      ForwardedFromJson(ToTree(ForwardedWritable(f))) == Ok(f.(content := [Plain(a + b)]))
      && !ForwardedEq(f, f.(content := [Plain(a + b)]))
  {
    var m: Message := [Plain(a), Plain(b)];
    var f := ForwardedMessage(sender, time, name, m);
    assert forall i :: 0 <= i < |m| ==> m[i].Plain?;
    ForwardedRoundTrip(f);
    CollapseTwoPlain(a, b);
    assert |m| != |[Plain(a + b)]|;
  }
}
