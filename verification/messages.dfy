/** A message: a sequence of segments, with the text tests, concatenation, the
    merging of adjacent plain text, text collection and the JSON forms. */
module Messages {
  import opened Wrappers
  import opened Segments
  import J = JsonTree
  import W = JsonWriter
  import U = Utf8

  /** The variadic constructor keeps its arguments' count and order, so a message is
      its sequence of segments. */
  type Message = seq<Segment>

  /** `+=` with one segment: appended at the end. */
  function AppendSegment(m: Message, s: Segment): (r: Message)
    ensures |r| == |m| + 1 && r[..|m|] == m && r[|m|] == s
  {
    m + [s]
  }

  /** `+=` and `+` with a message: the other's segments follow in order; the left
      operand is taken by value and stays as it was. */
  function Concat(m: Message, other: Message): (r: Message)
    ensures |r| == |m| + |other| && r[..|m|] == m && r[|m|..] == other
  {
    m + other
  }

  /** `clear` empties a message; `swap` exchanges two. */
  function Clear(m: Message): (r: Message)
    ensures |r| == 0
  {
    []
  }

  function Swap(a: Message, b: Message): (r: (Message, Message))
    ensures r.0 == b && r.1 == a
  {
    (b, a)
  }

  /** Comparison of two messages: same length, segment by segment equal. */
  predicate MessageEq(a: Message, b: Message)
  {
    |a| == |b| && forall i :: 0 <= i < |a| ==> SegmentEq(a[i], b[i])
  }

  lemma MessageEqReflexiveSymmetric(a: Message, b: Message)
    ensures MessageEq(a, a)
    ensures MessageEq(a, b) ==> MessageEq(b, a)
  {
    forall i | 0 <= i < |a|
      ensures SegmentEq(a[i], a[i])
    {
      SegmentEqReflexiveSymmetric(a[i], a[i]);
    }
    if MessageEq(a, b) {
      forall i | 0 <= i < |a|
        ensures SegmentEq(b[i], a[i])
      {
        SegmentEqReflexiveSymmetric(a[i], b[i]);
      }
    }
  }

  /** Comparison with a string: exactly one segment, Plain, with that text. */
  predicate EqualsText(m: Message, text: string)
  {
    |m| == 1 && GetIf(m[0], PlainType).Some? && GetIf(m[0], PlainType).value.text == text
  }

  /** Comparison with a segment: exactly one segment, equal to it. */
  predicate EqualsSegment(m: Message, s: Segment)
  {
    |m| == 1 && SegmentEq(m[0], s)
  }

  /** Comparison with a concrete segment: a Plain one compares as its text. */
  predicate EqualsConcrete(m: Message, s: Segment)
  {
    if s.Plain? then EqualsText(m, s.text) else EqualsSegment(m, s)
  }

  lemma EqualityMeaning(m: Message, text: string, s: Segment)
    ensures EqualsText(m, text) <==> m == [Plain(text)]
    ensures EqualsConcrete(m, s) <==> EqualsSegment(m, s)
    ensures EqualsSegment(m, s) ==> |m| == 1 && TypeOf(m[0]) == TypeOf(s)
  {
    if |m| == 1 {
      assert m == [m[0]];
    }
  }

  /** `starts_with_sv`: the first `|prefix|` bytes of a leading Plain segment's UTF-8
      text, compared with the prefix's bytes. */
  function StartsWithText(m: Message, prefix: string): bool
  {
    if |prefix| == 0 then true
    else if |m| == 0 then false
    else if GetIf(m[0], PlainType).Some? then
      var full, sv := U.Encode(m[0].text), U.Encode(prefix);
      full[..if |sv| < |full| then |sv| else |full|] == sv
    else false
  }

  /** The text prefix test in terms of the prefix relation on characters. */
  lemma StartsWithTextMeaning(m: Message, prefix: string)
    ensures StartsWithText(m, prefix) <==>
      |prefix| == 0 || (|m| > 0 && m[0].Plain? && prefix <= m[0].text)
  {
    if |prefix| > 0 && |m| > 0 && m[0].Plain? {
      var full, sv := U.Encode(m[0].text), U.Encode(prefix);
      assert full[..if |sv| < |full| then |sv| else |full|] == sv <==> sv <= full;
      U.BytePrefixIsCharPrefix(m[0].text, prefix);
    }
  }

  /** `ends_with_sv`, which inspects the first segment rather than the last, and cuts
      its UTF-8 text at `length() - sv.length()`: when the suffix has more bytes the
      unsigned difference wraps past the end and `substr` throws. */
  function EndsWithText(m: Message, suffix: string): (r: Result<bool>)
    ensures r.Fail? <==>
      |suffix| > 0 && |m| > 0 && m[0].Plain? && |U.Encode(suffix)| > |U.Encode(m[0].text)|
    ensures r.Fail? ==> r.error == OutOfRange
  {
    if |suffix| == 0 then Ok(true)
    else if |m| == 0 then Ok(false)
    else if GetIf(m[0], PlainType).Some? then
      var full, sv := U.Encode(m[0].text), U.Encode(suffix);
      if |sv| > |full| then Fail(OutOfRange)
      else Ok(full[|full| - |sv|..] == sv)
    else Ok(false)
  }

  /** When the test answers, the answer is whether the first segment is plain and its
      text ends with the suffix, counted in characters. */
  lemma EndsWithTextAnswer(m: Message, suffix: string)
    ensures EndsWithText(m, suffix).Ok? ==> (EndsWithText(m, suffix).value <==>
      |suffix| == 0 || (|m| > 0 && m[0].Plain? && EndsWith(m[0].text, suffix)))
  {
    if |suffix| > 0 && |m| > 0 && m[0].Plain? {
      var full, sv := U.Encode(m[0].text), U.Encode(suffix);
      U.ByteSuffixIsCharSuffix(m[0].text, suffix);
      EndsWithTail(m[0].text, suffix);
      if |sv| <= |full| {
        assert EndsWithText(m, suffix) == Ok(U.IsSuffix(sv, full));
      }
    }
  }

  /** A message whose last segment ends with the text is not recognised when its first
      segment does not: `[Plain("ab"), Plain("cd")]` does not end with "cd"; and a
      suffix of fewer characters but more bytes than the first text throws. */
  lemma EndsWithTextLooksAtFirst()
    ensures EndsWithText([Plain("ab"), Plain("cd")], "cd") == Ok(false)
    ensures EndsWithText([Plain("ab")], "abc") == Fail(OutOfRange)
    ensures EndsWithText([Plain("ab")], "\U{4E2D}") == Fail(OutOfRange)
  {
    U.EncodeAscii("ab");
    U.EncodeAscii("cd");
    assert U.Encode("ab")[1] != U.Encode("cd")[1];
    U.EncodeAscii("abc");
    U.WideCharBytes();
  }

  /** Lengths are counted in UTF-8 bytes: one three-byte character against two ASCII
      characters throws, and two ASCII characters against it are compared with its
      last two bytes. */
  lemma EndsWithTextCountsBytes()
    ensures EndsWithText([Plain("ab")], "\U{4E2D}") == Fail(OutOfRange)
    ensures EndsWithText([Plain("\U{4E2D}")], "ab") == Ok(false)
  {
    U.EncodeAscii("ab");
    U.WideCharBytes();
  }

  /** The suffix test as evidently intended: the last segment's text, and false
      rather than an error when the suffix has more bytes. */
  function EndsWithTextIntended(m: Message, suffix: string): (r: bool)
  {
    if |suffix| == 0 then true
    else if |m| == 0 then false
    else if GetIf(m[|m| - 1], PlainType).Some? then
      U.IsSuffix(U.Encode(suffix), U.Encode(m[|m| - 1].text))
    else false
  }

  /** `text` ends with `suffix` from position `k`. */
  predicate SuffixAt(text: string, suffix: string, k: int)
  {
    0 <= k <= |text| && text[k..] == suffix
  }

  ghost predicate EndsWith(text: string, suffix: string)
  {
    exists k :: SuffixAt(text, suffix, k)
  }

  /** A string ends with a suffix exactly when the suffix fits and the tail of that
      length equals it. */
  lemma EndsWithTail(text: string, suffix: string)
    ensures EndsWith(text, suffix) <==> |suffix| <= |text| && text[|text| - |suffix|..] == suffix
  {
    if |suffix| <= |text| {
      assert SuffixAt(text, suffix, |text| - |suffix|) <==> text[|text| - |suffix|..] == suffix;
    }
    if k :| SuffixAt(text, suffix, k) {
      assert |text[k..]| == |suffix|;
    }
  }

  lemma EndsWithTextIntendedMeaning(m: Message, suffix: string)
    ensures EndsWithTextIntended(m, suffix) <==>
      (|suffix| == 0 || (|m| > 0 && m[|m| - 1].Plain? && EndsWith(m[|m| - 1].text, suffix)))
    ensures EndsWithTextIntended(m + [Plain(suffix)], suffix)
  {
    if |m| > 0 && m[|m| - 1].Plain? {
      U.ByteSuffixIsCharSuffix(m[|m| - 1].text, suffix);
      EndsWithTail(m[|m| - 1].text, suffix);
    }
    var m' := m + [Plain(suffix)];
    assert m'[|m'| - 1] == Plain(suffix);
    assert U.Encode(suffix)[0..] == U.Encode(suffix);
  }

  /** Whether `needle` occurs in `text` at position `k` or later. */
  predicate OccursFrom<T(==)>(text: seq<T>, needle: seq<T>, k: nat)
    decreases |text| - k
  {
    if k + |needle| > |text| then false
    else if text[k..k + |needle|] == needle then true
    else OccursFrom(text, needle, k + 1)
  }

  /** `find(needle) != npos`. */
  predicate Occurs<T(==)>(text: seq<T>, needle: seq<T>)
  {
    OccursFrom(text, needle, 0)
  }

  lemma {:induction false} OccursFromMeaning<T>(text: seq<T>, needle: seq<T>, k: nat)
    ensures OccursFrom(text, needle, k) <==> exists i :: k <= i && U.OccursAt(text, needle, i)
    decreases |text| - k
  {
    if k + |needle| <= |text| && text[k..k + |needle|] == needle {
      assert U.OccursAt(text, needle, k);
    } else if k + |needle| <= |text| {
      OccursFromMeaning(text, needle, k + 1);
      if i :| k <= i && U.OccursAt(text, needle, i) {
        assert i != k;
      }
    }
  }

  /** Whether some Plain segment from position `i` on contains the needle's bytes. */
  predicate AnyPlainContains(m: Message, needle: string, i: nat)
    decreases |m| - i
  {
    if i >= |m| then false
    else
      (GetIf(m[i], PlainType).Some? && Occurs(U.Encode(m[i].text), U.Encode(needle)))
      || AnyPlainContains(m, needle, i + 1)
  }

  /** `contains_sv`: an empty needle is always contained; otherwise a byte search of
      each plain segment's UTF-8 text. */
  function ContainsText(m: Message, needle: string): bool
  {
    |needle| == 0 || AnyPlainContains(m, needle, 0)
  }

  lemma {:induction false} AnyPlainContainsMeaning(m: Message, needle: string, i: nat)
    ensures AnyPlainContains(m, needle, i) <==>
      exists k :: i <= k < |m| && m[k].Plain? && Occurs(U.Encode(m[k].text), U.Encode(needle))
    decreases |m| - i
  {
    if i < |m| {
      AnyPlainContainsMeaning(m, needle, i + 1);
    }
  }

  /** The substring characterisation of `contains_sv`, in characters. */
  lemma ContainsTextMeaning(m: Message, needle: string)
    ensures ContainsText(m, needle) <==>
      (|needle| == 0 || exists k, i :: 0 <= k < |m| && m[k].Plain? && U.OccursAt(m[k].text, needle, i))
  {
    AnyPlainContainsMeaning(m, needle, 0);
    forall k | 0 <= k < |m| && m[k].Plain?
      ensures Occurs(U.Encode(m[k].text), U.Encode(needle)) <==> exists i :: U.OccursAt(m[k].text, needle, i)
    {
      OccursFromMeaning(U.Encode(m[k].text), U.Encode(needle), 0);
      U.ByteInfixIsCharInfix(m[k].text, needle);
    }
  }

  /** `starts_with` with a segment: a Plain one tests the text prefix, any other must
      equal the first segment. */
  function StartsWithSegment(m: Message, prefix: Segment): (r: bool)
    ensures !prefix.Plain? ==> (r <==> |m| > 0 && SegmentEq(m[0], prefix))
    ensures prefix.Plain? ==> (r <==> |prefix.text| == 0 || (|m| > 0 && m[0].Plain? && prefix.text <= m[0].text))
  {
    StartsWithTextMeaning(m, if prefix.Plain? then prefix.text else "");
    if GetIf(prefix, PlainType).Some? then StartsWithText(m, prefix.text)
    else |m| > 0 && SegmentEq(m[0], prefix)
  }

  /** `starts_with` with a message is unimplemented and always false, even for an
      empty prefix. */
  function StartsWithMessage(m: Message, prefix: Message): bool
  {
    false
  }

  lemma StartsWithMessageNeverHolds(m: Message)
    ensures !StartsWithMessage(m, [])
    ensures !StartsWithMessage(m, m)
  {
  }

  /** The text of a segment for collection: its text if Plain, else nothing. */
  function PlainText(s: Segment): string
  {
    if s.Plain? then s.text else ""
  }

  /** `collect_text`: the Plain texts in order. */
  function CollectText(m: Message): string
  {
    if |m| == 0 then "" else CollectText(m[..|m| - 1]) + PlainText(m[|m| - 1])
  }

  lemma {:induction false} CollectTextConcat(a: Message, b: Message)
    ensures CollectText(a + b) == CollectText(a) + CollectText(b)
    decreases |b|
  {
    if |b| > 0 {
      var b' := b[..|b| - 1];
      assert (a + b)[..|a + b| - 1] == a + b';
      CollectTextConcat(a, b');
    } else {
      assert a + b == a;
    }
  }

  /** `collect<T>`: the segments of one type, in order. */
  function Collect(m: Message, t: SegmentType): (r: seq<Segment>)
    ensures forall i :: 0 <= i < |r| ==> TypeOf(r[i]) == t
    ensures |r| <= |m|
  {
    if |m| == 0 then []
    else Collect(m[..|m| - 1], t) + (if TypeOf(m[|m| - 1]) == t then [m[|m| - 1]] else [])
  }

  function JoinTexts(ps: seq<Segment>): string
  {
    if |ps| == 0 then "" else JoinTexts(ps[..|ps| - 1]) + PlainText(ps[|ps| - 1])
  }

  /** The collected text is the text of the collected Plain segments. */
  lemma {:induction false} CollectTextIsCollectedPlain(m: Message)
    ensures CollectText(m) == JoinTexts(Collect(m, PlainType))
  {
    if |m| > 0 {
      var c := Collect(m[..|m| - 1], PlainType);
      CollectTextIsCollectedPlain(m[..|m| - 1]);
      if m[|m| - 1].Plain? {
        assert (c + [m[|m| - 1]])[..|c|] == c;
      } else {
        assert c + [] == c;
      }
    }
  }

  /** One step of the merge: a Plain segment after a Plain segment is appended to its
      text; anything else is pushed. */
  function Push(acc: Message, s: Segment): (r: Message)
    ensures |r| == if s.Plain? && |acc| > 0 && acc[|acc| - 1].Plain? then |acc| else |acc| + 1
    ensures |r| > 0
  {
    if GetIf(s, PlainType).Some? && |acc| > 0 && GetIf(acc[|acc| - 1], PlainType).Some? then
      acc[..|acc| - 1] + [Plain(acc[|acc| - 1].text + s.text)]
    else acc + [s]
  }

  /** `collapse_adjacent_text`: the segments pushed one by one. */
  function Collapse(m: Message): Message
  {
    if |m| == 0 then [] else Push(Collapse(m[..|m| - 1]), m[|m| - 1])
  }

  /** Two plain pieces in a row become one. */
  lemma CollapseTwoPlain(a: string, b: string)
    ensures Collapse([Plain(a), Plain(b)]) == [Plain(a + b)]
  {
    var m := [Plain(a), Plain(b)];
    assert m[..1] == [Plain(a)];
    assert m[..1][..0] == [];
    assert Collapse(m[..1]) == [Plain(a)];
  }

  predicate NoAdjacentPlain(m: Message)
  {
    forall i :: 0 <= i < |m| - 1 ==> !(m[i].Plain? && m[i + 1].Plain?)
  }

  /** The segments that are not Plain, in order. */
  function NonPlain(m: Message): Message
  {
    if |m| == 0 then [] else NonPlain(m[..|m| - 1]) + (if m[|m| - 1].Plain? then [] else [m[|m| - 1]])
  }

  lemma PushFacts(acc: Message, s: Segment)
    ensures NoAdjacentPlain(acc) ==> NoAdjacentPlain(Push(acc, s))
    ensures CollectText(Push(acc, s)) == CollectText(acc) + PlainText(s)
    ensures NonPlain(Push(acc, s)) == NonPlain(acc) + (if s.Plain? then [] else [s])
  {
    var r := Push(acc, s);
    if s.Plain? && |acc| > 0 && acc[|acc| - 1].Plain? {
      var init := acc[..|acc| - 1];
      assert r[..|r| - 1] == init;
      assert acc[..|acc| - 1] == init;
    } else {
      assert r[..|r| - 1] == acc;
    }
  }

  /** After merging, no two adjacent segments are Plain; the collected text and the
      non-Plain segments are unchanged. */
  lemma {:induction false} CollapseInvariants(m: Message)
    ensures NoAdjacentPlain(Collapse(m))
    ensures CollectText(Collapse(m)) == CollectText(m)
    ensures NonPlain(Collapse(m)) == NonPlain(m)
  {
    if |m| > 0 {
      CollapseInvariants(m[..|m| - 1]);
      PushFacts(Collapse(m[..|m| - 1]), m[|m| - 1]);
    }
  }

  /** A message with no adjacent Plain segments is left as it is. */
  lemma {:induction false} CollapseFixesMerged(m: Message)
    requires NoAdjacentPlain(m)
    ensures Collapse(m) == m
  {
    if |m| > 0 {
      var init := m[..|m| - 1];
      assert NoAdjacentPlain(init);
      CollapseFixesMerged(init);
      assert init + [m[|m| - 1]] == m;
    }
  }

  /** Merging is idempotent. */
  lemma CollapseIdempotent(m: Message)
    ensures Collapse(Collapse(m)) == Collapse(m)
  {
    CollapseInvariants(m);
    CollapseFixesMerged(Collapse(m));
  }

  /** Pushing a further run of segments onto a merged prefix merges the whole. */
  function PushAll(acc: Message, rest: Message): Message
    decreases |rest|
  {
    if |rest| == 0 then acc else PushAll(Push(acc, rest[0]), rest[1..])
  }

  lemma {:induction false} PushAllCollapse(a: Message, b: Message)
    ensures PushAll(Collapse(a), b) == Collapse(a + b)
    decreases |b|
  {
    if |b| == 0 {
      assert a + b == a;
    } else {
      var a' := a + [b[0]];
      assert a'[..|a'| - 1] == a;
      assert a' + b[1..] == a + b;
      PushAllCollapse(a', b[1..]);
    }
  }

  /** The in-place loop of `collapse_adjacent_text`. */
  method CollapseAdjacentText(m: Message) returns (r: Message)
    ensures r == Collapse(m)
    ensures NoAdjacentPlain(r) && CollectText(r) == CollectText(m) && NonPlain(r) == NonPlain(m)
  {
    r := [];
    var i := 0;
    while i < |m|
      invariant 0 <= i <= |m|
      invariant r == Collapse(m[..i])
    {
      assert m[..i + 1][..i] == m[..i];
      r := Push(r, m[i]);
      i := i + 1;
    }
    assert m[..|m|] == m;
    CollapseInvariants(m);
  }

  /** `format_to`: the segments' texts in order; absent when a segment has no text
      form in this model. */
  function FormatMessage(m: Message): Option<string>
  {
    if |m| == 0 then Some("")
    else
      match FormatMessage(m[..|m| - 1])
      case None => None
      case Some(t) =>
        match FormatText(m[|m| - 1])
        case None => None
        case Some(u) => Some(t + u)
  }

  /** The text exists exactly when no segment is a forwarded message, and is the
      concatenation of the segments' texts. */
  lemma {:induction false} FormatMessageMeaning(m: Message, a: Message)
    ensures FormatMessage(m).Some? <==> forall i :: 0 <= i < |m| ==> !m[i].Forward?
    ensures FormatMessage(m + a).Some? && FormatMessage(m).Some? ==>
      FormatMessage(m).value <= FormatMessage(m + a).value
    decreases |a|, |m|
  {
    if |m| > 0 {
      FormatMessageMeaning(m[..|m| - 1], []);
      assert forall i :: 0 <= i < |m| - 1 ==> m[..|m| - 1][i] == m[i];
    }
    if |a| > 0 {
      var a' := a[..|a| - 1];
      assert (m + a)[..|m + a| - 1] == m + a';
      FormatMessageMeaning(m, a');
    } else {
      assert m + a == m;
    }
  }

  /** `format_as_json`: an array of the segments' objects. */
  function MessageWritable(m: Message): (w: W.Writable)
    ensures w.WArr? && |w.elems| == |m|
    ensures forall i :: 0 <= i < |m| ==> w.elems[i] == SegmentWritable(m[i])
  {
    W.WArr(seq(|m|, i requires 0 <= i < |m| => SegmentWritable(m[i])))
  }

  /** The array scope writes exactly the declarative array text. */
  lemma MessageJsonText(m: Message)
    ensures W.CloseScope(W.AddElements(W.OpenArray(""), MessageWritable(m).elems), "]")
      == W.Write(MessageWritable(m))
  {
    W.ArrayScopeWritesArray("", MessageWritable(m).elems);
  }

  /** `Message::from_json`: each element is decoded in turn and pushed, merging a Plain
      segment into a preceding one; the first failure is thrown. */
  function DecodePush(acc: Message, elems: seq<J.Json>): Result<Message>
    decreases |elems|
  {
    if |elems| == 0 then Ok(acc)
    else
      var s :- SegmentFromJson(elems[0]);
      DecodePush(Push(acc, s), elems[1..])
  }

  function MessageFromJson(j: J.Json): Result<Message>
  {
    if !j.JArr? then Fail(IncorrectType) else DecodePush([], j.elems)
  }

  lemma {:induction false} DecodePushIsCollapse(acc: Message, elems: seq<J.Json>)
    ensures J.ConvertAll(elems, SegmentFromJson).Ok? ==>
      DecodePush(acc, elems) == Ok(PushAll(acc, J.ConvertAll(elems, SegmentFromJson).value))
    ensures J.ConvertAll(elems, SegmentFromJson).Fail? ==> DecodePush(acc, elems).Fail?
    decreases |elems|
  {
    if |elems| > 0 {
      var first := SegmentFromJson(elems[0]);
      if first.Ok? {
        DecodePushIsCollapse(Push(acc, first.value), elems[1..]);
        var all := J.ConvertAll(elems, SegmentFromJson);
        if all.Ok? {
          assert all.value[1..] == J.ConvertAll(elems[1..], SegmentFromJson).value;
        }
      }
    }
  }

  /** Reading a message merges consecutive Plain segments exactly as
      `collapse_adjacent_text` does on the decoded segments. */
  lemma MessageFromJsonCollapses(j: J.Json)
    requires j.JArr?
    ensures J.ConvertAll(j.elems, SegmentFromJson).Ok? ==>
      MessageFromJson(j) == Ok(Collapse(J.ConvertAll(j.elems, SegmentFromJson).value))
    ensures J.ConvertAll(j.elems, SegmentFromJson).Fail? ==> MessageFromJson(j).Fail?
  {
    DecodePushIsCollapse([], j.elems);
    var all := J.ConvertAll(j.elems, SegmentFromJson);
    if all.Ok? {
      PushAllCollapse([], all.value);
      assert [] + all.value == all.value;
    }
  }

  lemma ReadsBackElementwise(m: Message)
    requires forall i :: 0 <= i < |m| ==> RoundTripsExactly(m[i])
    ensures W.ToTree(MessageWritable(m)).JArr? && |W.ToTree(MessageWritable(m)).elems| == |m|
    ensures forall i :: 0 <= i < |m| ==> SegmentFromJson(W.ToTree(MessageWritable(m)).elems[i]) == Ok(m[i])
  {
    var t := W.ToTree(MessageWritable(m));
    forall i | 0 <= i < |m|
      ensures SegmentFromJson(t.elems[i]) == Ok(m[i])
    {
      WrittenSegmentReadsBack(m[i]);
    }
  }

  /** A written message of exactly round-tripping segments reads back merged. */
  lemma MessageRoundTrip(m: Message)
    requires forall i :: 0 <= i < |m| ==> RoundTripsExactly(m[i])
    ensures MessageFromJson(W.ToTree(MessageWritable(m))) == Ok(Collapse(m))
  {
    var t := W.ToTree(MessageWritable(m));
    ReadsBackElementwise(m);
    J.ConvertAllExact(t.elems, SegmentFromJson, m);
    MessageFromJsonCollapses(t);
  }
}
