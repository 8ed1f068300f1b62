/** Assembly of a multipart/form-data request body from key/value parts. */
module Multipart {

  const Boundary: string := "miraippI7a60ebtQBvVicm91sqr2g"

  /** The closing delimiter appended when the body is taken; like the content type it
      names the one boundary. */
  const ClosingBoundary: string := "\r\n--" + Boundary + "--\r\n"

  const ContentType: string := "multipart/form-data; boundary=" + Boundary

  /** The builder holds nothing but the text accumulated so far. */
  datatype Builder = Builder(text: string)

  const EmptyBuilder: Builder := Builder("")

  /** The text of one part: delimiter, disposition header naming the key, a blank
      line, then the value. Key and value are inserted verbatim. */
  function PartHeader(key: string): string
  {
    "\r\n--" + Boundary + "\r\nContent-Disposition: form-data; name=\"" + key + "\"\r\n\r\n"
  }

  function PartText(key: string, value: string): (t: string)
    ensures PartHeader(key) <= t
    ensures t[|PartHeader(key)|..] == value
  {
    PartHeader(key) + value
  }

  /** Appending a part leaves the earlier text as a prefix and adds exactly that part. */
  function AddKeyValue(b: Builder, key: string, value: string): (r: Builder)
    ensures b.text <= r.text
    ensures r.text[|b.text|..] == PartText(key, value)
  {
    Builder(b.text + PartText(key, value))
  }

  /** The body: the accumulated text and the closing delimiter; the builder is left empty. */
  function TakeString(b: Builder): (r: (string, Builder))
    ensures r.1 == EmptyBuilder
    ensures b.text <= r.0
    ensures r.0[|b.text|..] == ClosingBoundary
  {
    (b.text + ClosingBoundary, EmptyBuilder)
  }

  datatype KeyValue = KeyValue(key: string, value: string)

  /** Adding parts one call at a time. */
  function AddAll(b: Builder, parts: seq<KeyValue>): Builder
    decreases |parts|
  {
    if |parts| == 0 then b else AddAll(AddKeyValue(b, parts[0].key, parts[0].value), parts[1..])
  }

  /** The parts' texts in call order. */
  function PartsText(parts: seq<KeyValue>): string
  {
    if |parts| == 0 then "" else PartText(parts[0].key, parts[0].value) + PartsText(parts[1..])
  }

  /** A body built by a sequence of calls is the parts in call order followed by the
      closing delimiter; nothing written earlier is rewritten. */
  lemma {:induction false} AddAllText(b: Builder, parts: seq<KeyValue>)
    ensures AddAll(b, parts).text == b.text + PartsText(parts)
    decreases |parts|
  {
    if |parts| > 0 {
      var p := parts[0];
      var t := PartText(p.key, p.value);
      var b' := AddKeyValue(b, p.key, p.value);
      assert b'.text == b.text + t;
      assert PartsText(parts) == t + PartsText(parts[1..]);
      AddAllText(b', parts[1..]);
    }
  }

  lemma BodyOfParts(parts: seq<KeyValue>)
    ensures TakeString(AddAll(EmptyBuilder, parts)).0 == PartsText(parts) + ClosingBoundary
  {
    AddAllText(EmptyBuilder, parts);
    var b := AddAll(EmptyBuilder, parts);
    assert b.text == PartsText(parts) by {
      assert EmptyBuilder.text == "";
    }
  }
}
