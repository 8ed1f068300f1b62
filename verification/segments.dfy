/** Message segments: the tagged union behind the type-erased `Segment`, with checked
    access by type, the per-kind equality, text formatting, and the JSON writer and
    reader for each kind. */
module Segments {
  import opened Wrappers
  import opened Ids
  import J = JsonTree
  import W = JsonWriter

  datatype SegmentType =
    | AtType | AtAllType | FaceType | PlainType | ImageType | FlashImageType
    | VoiceType | XmlType | JsonType | AppType | PokeType | ForwardType

  /** One segment. `Forward` keeps the forwarded-message element it was read from; its
      own structure is not part of this model. */
  datatype Segment =
    | At(target: UserId, display: string)
    | AtAll
    | Face(faceId: Option<i32>, name: Option<string>)
    | Plain(text: string)
    | Image(imageId: Option<string>, url: Option<string>, path: Option<string>)
    | FlashImage(imageId: Option<string>, url: Option<string>, path: Option<string>)
    | Voice(voiceId: Option<string>, url: Option<string>, path: Option<string>)
    | Xml(xml: string)
    | Json(json: string)
    | App(content: string)
    | Poke(pokeName: string)
    | Forward(raw: J.Json)

  /** A default-constructed face carries face id 0 and no name. */
  const DefaultFace: Segment := Face(Some(0), None)

  /** The static tag of the wrapped component. */
  function TypeOf(s: Segment): SegmentType
  {
    match s
    case At(_, _) => AtType
    case AtAll => AtAllType
    case Face(_, _) => FaceType
    case Plain(_) => PlainType
    case Image(_, _, _) => ImageType
    case FlashImage(_, _, _) => FlashImageType
    case Voice(_, _, _) => VoiceType
    case Xml(_) => XmlType
    case Json(_) => JsonType
    case App(_) => AppType
    case Poke(_) => PokeType
    case Forward(_) => ForwardType
  }

  /** The name of each type on the wire. */
  function TypeName(t: SegmentType): string
  {
    match t
    case AtType => "At"
    case AtAllType => "AtAll"
    case FaceType => "Face"
    case PlainType => "Plain"
    case ImageType => "Image"
    case FlashImageType => "FlashImage"
    case VoiceType => "Voice"
    case XmlType => "Xml"
    case JsonType => "Json"
    case AppType => "App"
    case PokeType => "Poke"
    case ForwardType => "Forward"
  }

  lemma TypeNameInjective(a: SegmentType, b: SegmentType)
    ensures TypeName(a) == TypeName(b) ==> a == b
  {
  }

  /** The reader's dispatch table: the type a wire name stands for, if any. */
  function TypeFromName(name: string): (r: Option<SegmentType>)
    ensures r.Some? ==> TypeName(r.value) == name
    ensures r.None? ==> forall t :: TypeName(t) != name
  {
    if name == "At" then Some(AtType)
    else if name == "AtAll" then Some(AtAllType)
    else if name == "Face" then Some(FaceType)
    else if name == "Plain" then Some(PlainType)
    else if name == "Image" then Some(ImageType)
    else if name == "FlashImage" then Some(FlashImageType)
    else if name == "Voice" then Some(VoiceType)
    else if name == "Xml" then Some(XmlType)
    else if name == "Json" then Some(JsonType)
    else if name == "App" then Some(AppType)
    else if name == "Poke" then Some(PokeType)
    else if name == "Forward" then Some(ForwardType)
    else None
  }

  /** Every type's own name dispatches to that type. */
  lemma TypeFromNameOfTypeName(t: SegmentType)
    ensures TypeFromName(TypeName(t)) == Some(t)
  {
    TypeNameInjective(TypeFromName(TypeName(t)).value, t);
  }

  const TypeMismatch: Error := RuntimeError("消息段类型不匹配")

  /** `get<T>`: the segment when it holds a T, otherwise a runtime error. */
  function Get(s: Segment, t: SegmentType): (r: Result<Segment>)
    ensures r.Ok? <==> TypeOf(s) == t
    ensures r.Ok? ==> r.value == s
    ensures r.Fail? ==> r.error == TypeMismatch
  {
    if TypeOf(s) == t then Ok(s) else Fail(TypeMismatch)
  }

  /** `get_if<T>`: present exactly when the segment holds a T. */
  function GetIf(s: Segment, t: SegmentType): (r: Option<Segment>)
    ensures r.Some? <==> TypeOf(s) == t
    ensures r.Some? ==> r.value == s
  {
    if TypeOf(s) == t then Some(s) else None
  }

  /** The checked and the nullable access agree. */
  lemma GetAgreesWithGetIf(s: Segment, t: SegmentType)
    ensures Get(s, t).Ok? <==> GetIf(s, t).Some?
    ensures Get(s, t).Ok? ==> Get(s, t).value == GetIf(s, t).value
  {
  }

  /** Construction or assignment from any string yields a Plain segment. */
  function FromText(text: string): (s: Segment)
    ensures TypeOf(s) == PlainType && s.text == text
    ensures CompareWithText(s, text)
  {
    Plain(text)
  }

  /** `compare_with_sv`: true exactly for a Plain segment with that text. */
  predicate CompareWithText(s: Segment, text: string)
  {
    GetIf(s, PlainType).Some? && GetIf(s, PlainType).value.text == text
  }

  lemma CompareWithTextMeaning(s: Segment, text: string)
    ensures CompareWithText(s, text) <==> s == Plain(text)
    ensures TypeOf(s) != PlainType ==> !CompareWithText(s, text)
  {
  }

  /** Equality of two optionals that are present, the test that decides the
      identifier-based equalities. */
  predicate SamePresent<T(==)>(a: Option<T>, b: Option<T>)
  {
    a.Some? && a == b
  }

  /** Segment equality: the same kind, then the kind's own rule. At compares targets
      only; any two AtAll are equal; Face compares present face ids, else names;
      Image, FlashImage and Voice compare present ids, else present urls, else paths;
      the text kinds compare their content. */
  predicate SegmentEq(a: Segment, b: Segment)
  {
    match a
    case At(t, _) => b.At? && b.target == t
    case AtAll => b.AtAll?
    case Face(id, n) => b.Face? && (SamePresent(id, b.faceId) || n == b.name)
    case Image(id, u, p) => b.Image? && (SamePresent(id, b.imageId) || SamePresent(u, b.url) || p == b.path)
    case FlashImage(id, u, p) =>
      b.FlashImage? && (SamePresent(id, b.imageId) || SamePresent(u, b.url) || p == b.path)
    case Voice(id, u, p) => b.Voice? && (SamePresent(id, b.voiceId) || SamePresent(u, b.url) || p == b.path)
    case _ => a == b
  }

  /** Segment equality is an equivalence only in part: it is reflexive and symmetric. */
  lemma SegmentEqReflexiveSymmetric(a: Segment, b: Segment)
    ensures SegmentEq(a, a)
    ensures SegmentEq(a, b) ==> SegmentEq(b, a)
  {
  }

  /** It is not transitive: two faces sharing an id with different names, and a third
      face with the second's name but another id. */
  lemma SegmentEqNotTransitive()
    ensures exists a, b, c :: SegmentEq(a, b) && SegmentEq(b, c) && !SegmentEq(a, c)
  {
    var a := Face(Some(1), Some("a"));
    var b := Face(Some(1), Some("b"));
    var c := Face(Some(2), Some("b"));
    assert SegmentEq(a, b) && SegmentEq(b, c) && !SegmentEq(a, c);
  }

  /** Equal segments are of equal type, and structural equality implies segment
      equality; At ignores its display text. */
  lemma SegmentEqFacts(a: Segment, b: Segment, d: string)
    ensures SegmentEq(a, b) ==> TypeOf(a) == TypeOf(b)
    ensures a == b ==> SegmentEq(a, b)
    ensures a.At? ==> SegmentEq(a, At(a.target, d))
  {
  }

  /** The first present of three optional fields. */
  function FirstPresent(a: Option<string>, b: Option<string>, c: Option<string>): (r: Option<string>)
    ensures r.Some? <==> a.Some? || b.Some? || c.Some?
    ensures a.Some? ==> r == a
    ensures a.None? && b.Some? ==> r == b
    ensures a.None? && b.None? ==> r == c
  {
    if a.Some? then a else if b.Some? then b else c
  }

  /** Bracketed text with an optional argument: "[tag arg]" or "[tag]". */
  function Bracketed(tag: string, arg: Option<string>): string
  {
    if arg.Some? then "[" + tag + " " + arg.value + "]" else "[" + tag + "]"
  }

  /** `format_to`: the human-readable text of a segment. The text of a forwarded
      message is not part of this model. */
  function FormatText(s: Segment): (r: Option<string>)
    ensures r.None? <==> s.Forward?
    ensures s.Plain? ==> r == Some(s.text)
    ensures s.Xml? ==> r == Some(s.xml)
    ensures s.Json? ==> r == Some(s.json)
    ensures s.App? ==> r == Some(s.content)
    ensures s.Image? ==> r == Some(FirstPresent(s.imageId, s.url, s.path).GetOr("null"))
  {
    match s
    case At(t, d) => Some((if |d| > 0 then d else "") + "@" + W.IntText(t.id as int))
    case AtAll => Some("@全体成员")
    case Face(id, n) =>
      Some(if n.Some? then Bracketed("表情", n)
        else if id.Some? then Bracketed("表情", Some(W.IntText(id.value as int)))
        else Bracketed("表情", None))
    case Plain(text) => Some(text)
    case Image(id, u, p) => Some(FirstPresent(id, u, p).GetOr("null"))
    case FlashImage(id, u, p) => Some(Bracketed("图片", FirstPresent(id, u, p)))
    case Voice(id, u, p) => Some(Bracketed("语音", FirstPresent(id, u, p)))
    case Xml(x) => Some(x)
    case Json(x) => Some(x)
    case App(x) => Some(x)
    case Poke(n) => Some(Bracketed("戳一戳", Some(n)))
    case Forward(_) => None
  }

  /** The writable object of a segment: its type name first, then its fields. */
  function TypeEntry(t: SegmentType): W.Entry
  {
    W.Entry("type", W.WStr(TypeName(t)))
  }

  function OptString(o: Option<string>): W.Writable
  {
    W.WOpt(if o.Some? then Some(W.WStr(o.value)) else None)
  }

  /** Image, FlashImage and Voice write only the first present of their three fields. */
  function FirstPresentEntries(idKey: string, id: Option<string>, u: Option<string>, p: Option<string>)
    : (es: seq<W.Entry>)
    ensures |es| <= 1
    ensures |es| == 1 <==> FirstPresent(id, u, p).Some?
    ensures |es| == 1 ==> es[0].value == W.WOpt(Some(W.WStr(FirstPresent(id, u, p).value)))
  {
    if id.Some? then [W.Entry(idKey, OptString(id))]
    else if u.Some? then [W.Entry("url", OptString(u))]
    else if p.Some? then [W.Entry("path", OptString(p))]
    else []
  }

  /** `format_as_json` of each kind. At writes its target but not its display text;
      Face always writes both fields, null when absent. */
  function SegmentWritable(s: Segment): (w: W.Writable)
    ensures !s.Forward? ==> w.WObj? && |w.entries| >= 1 && w.entries[0] == TypeEntry(TypeOf(s))
    ensures s.Forward? ==> W.ToTree(w) == s.raw
  {
    W.FromTreeDenotes(if s.Forward? then s.raw else J.JNull);
    match s
    case At(t, _) => W.WObj([TypeEntry(AtType), W.Entry("target", W.WInt(t.id as int))])
    case AtAll => W.WObj([TypeEntry(AtAllType)])
    case Face(id, n) =>
      W.WObj([TypeEntry(FaceType),
              W.Entry("faceId", W.WOpt(if id.Some? then Some(W.WInt(id.value as int)) else None)),
              W.Entry("name", OptString(n))])
    case Plain(text) => W.WObj([TypeEntry(PlainType), W.Entry("text", W.WStr(text))])
    case Image(id, u, p) => W.WObj([TypeEntry(ImageType)] + FirstPresentEntries("imageId", id, u, p))
    case FlashImage(id, u, p) => W.WObj([TypeEntry(FlashImageType)] + FirstPresentEntries("imageId", id, u, p))
    case Voice(id, u, p) => W.WObj([TypeEntry(VoiceType)] + FirstPresentEntries("voiceId", id, u, p))
    case Xml(x) => W.WObj([TypeEntry(XmlType), W.Entry("xml", W.WStr(x))])
    case Json(x) => W.WObj([TypeEntry(JsonType), W.Entry("json", W.WStr(x))])
    case App(x) => W.WObj([TypeEntry(AppType), W.Entry("content", W.WStr(x))])
    case Poke(n) => W.WObj([TypeEntry(PokeType), W.Entry("name", W.WStr(n))])
    case Forward(raw) => W.FromTree(raw)
  }

  /** The text of a segment as JSON. */
  function SegmentJson(s: Segment): string
  {
    W.Write(SegmentWritable(s))
  }

  lemma QuoteAtAll()
    ensures W.Quote("AtAll") == "\"AtAll\""
  {
    W.EscapeIdentity("AtAll");
  }

  lemma AtAllWritable()
    ensures SegmentWritable(AtAll) == W.WObj([TypeEntry(AtAllType)])
  {
  }

  /** AtAll is written as exactly `{"type":"AtAll"}`. */
  lemma AtAllJson()
    ensures SegmentJson(AtAll) == "{\"type\":\"AtAll\"}"
  {
    var e := TypeEntry(AtAllType);
    calc {
      SegmentJson(AtAll);
      { AtAllWritable(); }
      W.Write(W.WObj([e]));
      { W.SingleEntryObject(e); }
      "{" + W.EntryText(e) + "}";
      { QuoteAtAll(); }
      "{" + ("\"" + "type" + "\":" + "\"AtAll\"") + "}";
    }
  }

  /** Where an image has a text form other than "null", its JSON carries that same
      text as its only field besides the type. */
  lemma ImageTextMatchesJson(s: Segment)
    requires s.Image?
    ensures FormatText(s) == Some("null") && FirstPresent(s.imageId, s.url, s.path).None? ==>
      |SegmentWritable(s).entries| == 1
    ensures FirstPresent(s.imageId, s.url, s.path).Some? ==>
      |SegmentWritable(s).entries| == 2
      && W.ToTree(SegmentWritable(s).entries[1].value) == J.JStr(FormatText(s).value)
  {
  }

  /** `Segment::from_json`: dispatch on the "type" string, then the kind's reader. */
  function SegmentFromJson(j: J.Json): (r: Result<Segment>)
    ensures r.Ok? ==> J.GetString(J.Lookup(j, "type")) == Ok(TypeName(TypeOf(r.value)))
    ensures (J.GetString(J.Lookup(j, "type")).Ok?
             && forall t :: TypeName(t) != J.GetString(J.Lookup(j, "type")).value) ==>
      r == Fail(RuntimeError("未知的消息段类型"))
  {
    var name :- J.GetString(J.Lookup(j, "type"));
    match TypeFromName(name)
    case None => Fail(RuntimeError("未知的消息段类型"))
    case Some(t) => ReadKind(j, t)
  }

  /** A document whose "type" names a kind is read by that kind's reader. */
  lemma DispatchOnType(j: J.Json, t: SegmentType)
    requires J.GetString(J.Lookup(j, "type")) == Ok(TypeName(t))
    ensures SegmentFromJson(j) == ReadKind(j, t)
  {
    TypeFromNameOfTypeName(t);
  }

  /** The reader of each kind. A forwarded element keeps the whole document. */
  function ReadKind(j: J.Json, t: SegmentType): (r: Result<Segment>)
    ensures r.Ok? ==> TypeOf(r.value) == t
  {
    match t
    case AtType => AtFromJson(j)
    case AtAllType => Ok(AtAll)
    case FaceType => FaceFromJson(j)
    case PlainType => TextFromJson(j, "text", PlainType)
    case ImageType =>
      var f :- ThreeOptional(j, "imageId");
      Ok(Image(f.0, f.1, f.2))
    case FlashImageType =>
      var f :- ThreeOptional(j, "imageId");
      Ok(FlashImage(f.0, f.1, f.2))
    case VoiceType =>
      var f :- ThreeOptional(j, "voiceId");
      Ok(Voice(f.0, f.1, f.2))
    case XmlType => TextFromJson(j, "xml", XmlType)
    case JsonType => TextFromJson(j, "json", JsonType)
    case AppType => TextFromJson(j, "content", AppType)
    case PokeType => TextFromJson(j, "name", PokeType)
    case ForwardType => Ok(Forward(j))
  }

  /** At reads its target and its display text; both are required. */
  function AtFromJson(j: J.Json): (r: Result<Segment>)
    ensures r.Ok? <==> J.GetInt64(J.Lookup(j, "target")).Ok? && J.GetString(J.Lookup(j, "display")).Ok?
    ensures r.Ok? ==> r.value.At? && r.value.target.id as int == J.Lookup(j, "target").value.n
  {
    var target :- J.GetInt64(J.Lookup(j, "target"));
    var display :- J.GetString(J.Lookup(j, "display"));
    Ok(At(UserId(target), display))
  }

  /** Face reads "faceId" as an optional unsigned 32-bit value stored into a signed one,
      and "name" as a required string. */
  function FaceFromJson(j: J.Json): (r: Result<Segment>)
    ensures r.Ok? <==> (J.GetOptional(J.Lookup(j, "faceId"), J.GetUint32).Ok?
      && J.GetString(J.Lookup(j, "name")).Ok?)
    ensures r.Ok? ==> r.value.Face? && r.value.name.Some?
    ensures r.Ok? ==> (r.value.faceId.None? <==> J.MissingOrNull(J.Lookup(j, "faceId")))
    ensures r.Ok? ==> r.value.name.value == J.GetString(J.Lookup(j, "name")).value
    ensures r.Ok? && r.value.faceId.Some? ==>
      J.GetUint32(J.Lookup(j, "faceId")).Ok?
      && r.value.faceId.value as int % 0x1_0000_0000 == J.GetUint32(J.Lookup(j, "faceId")).value as int
  {
    var id :- J.GetOptional(J.Lookup(j, "faceId"), J.GetUint32);
    var name :- J.GetString(J.Lookup(j, "name"));
    Ok(Face(if id.Some? then Some(Wrap32(id.value)) else None, Some(name)))
  }

  /** The one string of the kinds that hold exactly one. */
  function StringContent(s: Segment): Option<string>
  {
    match s
    case Plain(x) => Some(x)
    case Xml(x) => Some(x)
    case Json(x) => Some(x)
    case App(x) => Some(x)
    case Poke(x) => Some(x)
    case _ => None
  }

  /** The kinds that hold one string read from one key. */
  function TextFromJson(j: J.Json, key: string, t: SegmentType): (r: Result<Segment>)
    requires t in {PlainType, XmlType, JsonType, AppType, PokeType}
    ensures r.Ok? <==> J.GetString(J.Lookup(j, key)).Ok?
    ensures r.Ok? ==> TypeOf(r.value) == t
    ensures r.Ok? ==> StringContent(r.value) == Some(J.GetString(J.Lookup(j, key)).value)
  {
    var x :- J.GetString(J.Lookup(j, key));
    Ok(match t
      case PlainType => Plain(x)
      case XmlType => Xml(x)
      case JsonType => Json(x)
      case AppType => App(x)
      case _ => Poke(x))
  }

  /** The three optional strings of Image, FlashImage and Voice. */
  function ThreeOptional(j: J.Json, idKey: string): (r: Result<(Option<string>, Option<string>, Option<string>)>)
    ensures r.Ok? ==> (r.value.0.None? <==> J.MissingOrNull(J.Lookup(j, idKey)))
    ensures r.Ok? ==> (r.value.1.None? <==> J.MissingOrNull(J.Lookup(j, "url")))
    ensures r.Ok? ==> (r.value.2.None? <==> J.MissingOrNull(J.Lookup(j, "path")))
    ensures r.Ok? <==> (J.GetOptionalString(J.Lookup(j, idKey)).Ok?
      && J.GetOptionalString(J.Lookup(j, "url")).Ok? && J.GetOptionalString(J.Lookup(j, "path")).Ok?)
    ensures r.Ok? ==> (J.GetOptionalString(J.Lookup(j, idKey)) == Ok(r.value.0)
      && J.GetOptionalString(J.Lookup(j, "url")) == Ok(r.value.1)
      && J.GetOptionalString(J.Lookup(j, "path")) == Ok(r.value.2))
  {
    var id :- J.GetOptionalString(J.Lookup(j, idKey));
    var u :- J.GetOptionalString(J.Lookup(j, "url"));
    var p :- J.GetOptionalString(J.Lookup(j, "path"));
    Ok((id, u, p))
  }

  /** The document a written segment denotes. */
  function OptionalStringTree(o: Option<string>): J.Json
  {
    if o.Some? then J.JStr(o.value) else J.JNull
  }

  function FirstPresentFields(idKey: string, id: Option<string>, u: Option<string>, p: Option<string>)
    : seq<J.Field>
  {
    if id.Some? then [J.Field(idKey, J.JStr(id.value))]
    else if u.Some? then [J.Field("url", J.JStr(u.value))]
    else if p.Some? then [J.Field("path", J.JStr(p.value))]
    else []
  }

  function SegmentTree(s: Segment): J.Json
  {
    var ty := J.Field("type", J.JStr(TypeName(TypeOf(s))));
    match s
    case At(t, _) => J.JObj([ty, J.Field("target", J.JInt(t.id as int))])
    case AtAll => J.JObj([ty])
    case Face(id, n) =>
      J.JObj([ty, J.Field("faceId", if id.Some? then J.JInt(id.value as int) else J.JNull),
              J.Field("name", OptionalStringTree(n))])
    case Plain(text) => J.JObj([ty, J.Field("text", J.JStr(text))])
    case Image(id, u, p) => J.JObj([ty] + FirstPresentFields("imageId", id, u, p))
    case FlashImage(id, u, p) => J.JObj([ty] + FirstPresentFields("imageId", id, u, p))
    case Voice(id, u, p) => J.JObj([ty] + FirstPresentFields("voiceId", id, u, p))
    case Xml(x) => J.JObj([ty, J.Field("xml", J.JStr(x))])
    case Json(x) => J.JObj([ty, J.Field("json", J.JStr(x))])
    case App(x) => J.JObj([ty, J.Field("content", J.JStr(x))])
    case Poke(n) => J.JObj([ty, J.Field("name", J.JStr(n))])
    case Forward(raw) => raw
  }

  lemma FirstPresentDenoted(ty: W.Entry, idKey: string, id: Option<string>, u: Option<string>, p: Option<string>)
    ensures W.ToFields([ty] + FirstPresentEntries(idKey, id, u, p))
      == [J.Field(ty.key, W.ToTree(ty.value))] + FirstPresentFields(idKey, id, u, p)
  {
    var es := [ty] + FirstPresentEntries(idKey, id, u, p);
    var fs := W.ToFields(es);
    var ts := [J.Field(ty.key, W.ToTree(ty.value))] + FirstPresentFields(idKey, id, u, p);
    assert |fs| == |ts|;
    assert fs[0] == ts[0];
    if |fs| == 2 {
      var v := FirstPresent(id, u, p).value;
      assert es[1].value == W.WOpt(Some(W.WStr(v)));
      assert W.ToTree(W.WStr(v)) == J.JStr(v);
      assert fs[1] == ts[1];
    }
  }

  lemma MediaTreeDenoted(s: Segment)
    requires s.Image? || s.FlashImage? || s.Voice?
    ensures W.ToTree(SegmentWritable(s)) == SegmentTree(s)
  {
    match s
    case Image(id, u, p) => FirstPresentDenoted(TypeEntry(ImageType), "imageId", id, u, p);
    case FlashImage(id, u, p) => FirstPresentDenoted(TypeEntry(FlashImageType), "imageId", id, u, p);
    case Voice(id, u, p) => FirstPresentDenoted(TypeEntry(VoiceType), "voiceId", id, u, p);
  }

  lemma FaceTreeDenoted(s: Segment)
    requires s.Face?
    ensures W.ToTree(SegmentWritable(s)) == SegmentTree(s)
  {
    if s.faceId.Some? {
      assert W.ToTree(W.WInt(s.faceId.value as int)) == J.JInt(s.faceId.value as int);
    }
    if s.name.Some? {
      assert W.ToTree(W.WStr(s.name.value)) == J.JStr(s.name.value);
    }
  }

  lemma PlainKindTreeDenoted(s: Segment)
    requires s.At? || s.AtAll? || s.Plain? || s.Xml? || s.Json? || s.App? || s.Poke?
    ensures W.ToTree(SegmentWritable(s)) == SegmentTree(s)
  {
  }

  lemma SegmentTreeDenoted(s: Segment)
    ensures W.ToTree(SegmentWritable(s)) == SegmentTree(s)
  {
    if s.Image? || s.FlashImage? || s.Voice? {
      MediaTreeDenoted(s);
    } else if s.Face? {
      FaceTreeDenoted(s);
    } else if !s.Forward? {
      PlainKindTreeDenoted(s);
    }
  }

  /** The kinds whose written form reads back as the very same segment. */
  predicate RoundTripsExactly(s: Segment)
  {
    || s.AtAll? || s.Plain? || s.Xml? || s.Json? || s.App? || s.Poke?
    || (s.Forward? && J.GetString(J.Lookup(s.raw, "type")) == Ok("Forward"))
    || (s.Face? && s.name.Some? && (s.faceId.None? || s.faceId.value >= 0))
  }

  /** A written segment other than a forwarded element is read by its own kind's reader. */
  lemma ReadTypeName(s: Segment)
    requires !s.Forward?
    ensures J.GetString(J.Lookup(SegmentTree(s), "type")) == Ok(TypeName(TypeOf(s)))
    ensures SegmentFromJson(SegmentTree(s)) == ReadKind(SegmentTree(s), TypeOf(s))
  {
    J.LookupAt(SegmentTree(s).fields, 0, "type");
    DispatchOnType(SegmentTree(s), TypeOf(s));
  }

  /** A kind holding one string under `key` is read back by the text reader. */
  lemma ReadTextKind(name: string, key: string, t: SegmentType, x: string)
    requires t in {PlainType, XmlType, JsonType, AppType, PokeType} && TypeName(t) == name
    requires key != "type"
    ensures SegmentFromJson(J.JObj([J.Field("type", J.JStr(name)), J.Field(key, J.JStr(x))]))
      == ReadKind(J.JObj([J.Field("type", J.JStr(name)), J.Field(key, J.JStr(x))]), t)
    ensures J.GetString(J.Lookup(J.JObj([J.Field("type", J.JStr(name)), J.Field(key, J.JStr(x))]), key)) == Ok(x)
  {
    var fs := [J.Field("type", J.JStr(name)), J.Field(key, J.JStr(x))];
    J.LookupAt(fs, 0, "type");
    DispatchOnType(J.JObj(fs), t);
    J.LookupAt(fs, 1, key);
  }

  lemma PlainRoundTrip(x: string)
    ensures SegmentFromJson(SegmentTree(Plain(x))) == Ok(Plain(x))
  {
    assert SegmentTree(Plain(x)) == J.JObj([J.Field("type", J.JStr("Plain")), J.Field("text", J.JStr(x))]);
    assert "type"[1] != "text"[1];
    ReadTextKind("Plain", "text", PlainType, x);
  }

  lemma XmlRoundTrip(x: string)
    ensures SegmentFromJson(SegmentTree(Xml(x))) == Ok(Xml(x))
  {
    assert SegmentTree(Xml(x)) == J.JObj([J.Field("type", J.JStr("Xml")), J.Field("xml", J.JStr(x))]);
    ReadTextKind("Xml", "xml", XmlType, x);
  }

  lemma JsonRoundTrip(x: string)
    ensures SegmentFromJson(SegmentTree(Json(x))) == Ok(Json(x))
  {
    assert SegmentTree(Json(x)) == J.JObj([J.Field("type", J.JStr("Json")), J.Field("json", J.JStr(x))]);
    assert "type"[0] != "json"[0];
    ReadTextKind("Json", "json", JsonType, x);
  }

  lemma AppRoundTrip(x: string)
    ensures SegmentFromJson(SegmentTree(App(x))) == Ok(App(x))
  {
    assert SegmentTree(App(x)) == J.JObj([J.Field("type", J.JStr("App")), J.Field("content", J.JStr(x))]);
    ReadTextKind("App", "content", AppType, x);
  }

  lemma PokeRoundTrip(x: string)
    ensures SegmentFromJson(SegmentTree(Poke(x))) == Ok(Poke(x))
  {
    assert SegmentTree(Poke(x)) == J.JObj([J.Field("type", J.JStr("Poke")), J.Field("name", J.JStr(x))]);
    assert "type"[0] != "name"[0];
    ReadTextKind("Poke", "name", PokeType, x);
  }

  /** The kinds without a field, or with one string field, read back as themselves. */
  lemma TextKindRoundTrip(s: Segment)
    requires s.AtAll? || s.Plain? || s.Xml? || s.Json? || s.App? || s.Poke?
    ensures SegmentFromJson(SegmentTree(s)) == Ok(s)
  {
    match s
    case AtAll =>
      J.LookupAt(SegmentTree(s).fields, 0, "type");
      DispatchOnType(SegmentTree(s), AtAllType);
    case Plain(x) => PlainRoundTrip(x);
    case Xml(x) => XmlRoundTrip(x);
    case Json(x) => JsonRoundTrip(x);
    case App(x) => AppRoundTrip(x);
    case Poke(x) => PokeRoundTrip(x);
  }

  /** At does not read back: its display text is not written but is required. */
  lemma AtDoesNotRoundTrip(s: Segment)
    requires s.At?
    ensures SegmentFromJson(SegmentTree(s)) == Fail(NoSuchField("display"))
  {
    ReadTypeName(s);
    J.LookupAt(SegmentTree(s).fields, 1, "target");
    assert J.FirstKey(SegmentTree(s).fields, "display").None?;
  }

  function FaceTreeOf(id: Option<i32>, n: Option<string>): J.Json
  {
    J.JObj([J.Field("type", J.JStr("Face")),
            J.Field("faceId", if id.Some? then J.JInt(id.value as int) else J.JNull),
            J.Field("name", OptionalStringTree(n))])
  }

  /** The face id is read back unless it is negative. */
  lemma ReadFaceId(id: Option<i32>, n: Option<string>)
    ensures J.GetOptional(J.Lookup(FaceTreeOf(id, n), "faceId"), J.GetUint32).Ok?
      <==> id.None? || id.value >= 0
    ensures J.GetOptional(J.Lookup(FaceTreeOf(id, n), "faceId"), J.GetUint32).Ok? ==>
      (var r := J.GetOptional(J.Lookup(FaceTreeOf(id, n), "faceId"), J.GetUint32).value;
       r.None? == id.None? && (r.Some? ==> Wrap32(r.value) == id.value))
  {
    J.LookupAt(FaceTreeOf(id, n).fields, 1, "faceId");
  }

  /** The name is read back when present; a null name is the wrong type. */
  lemma ReadFaceName(id: Option<i32>, n: Option<string>)
    ensures J.GetString(J.Lookup(FaceTreeOf(id, n), "name")).Ok? <==> n.Some?
    ensures n.Some? ==> J.GetString(J.Lookup(FaceTreeOf(id, n), "name")) == Ok(n.value)
  {
    assert "type"[0] != "name"[0];
    J.LookupAt(FaceTreeOf(id, n).fields, 2, "name");
  }

  /** A face reads back exactly when it has a name and no negative face id; a
      negative id is written as a negative number, which the unsigned read rejects. */
  lemma FaceRoundTrip(s: Segment)
    requires s.Face?
    ensures SegmentFromJson(SegmentTree(s)).Ok? <==>
      s.name.Some? && (s.faceId.None? || s.faceId.value >= 0)
    ensures SegmentFromJson(SegmentTree(s)).Ok? ==> SegmentFromJson(SegmentTree(s)) == Ok(s)
  {
    var t := FaceTreeOf(s.faceId, s.name);
    assert SegmentTree(s) == t;
    J.LookupAt(t.fields, 0, "type");
    DispatchOnType(t, FaceType);
    ReadFaceId(s.faceId, s.name);
    ReadFaceName(s.faceId, s.name);
  }

  /** Image, FlashImage and Voice keep only their first present field on the way
      back; the result equals the original under segment equality. */
  function KeepFirstPresent(s: Segment): (r: Segment)
    requires s.Image? || s.FlashImage? || s.Voice?
    ensures TypeOf(r) == TypeOf(s) && SegmentEq(r, s) && SegmentEq(s, r)
  {
    match s
    case Image(id, u, p) =>
      Image(id, if id.Some? then None else u, if id.Some? || u.Some? then None else p)
    case FlashImage(id, u, p) =>
      FlashImage(id, if id.Some? then None else u, if id.Some? || u.Some? then None else p)
    case Voice(id, u, p) =>
      Voice(id, if id.Some? then None else u, if id.Some? || u.Some? then None else p)
  }

  lemma ReadOnlyType(name: string, idKey: string)
    requires idKey in {"imageId", "voiceId"}
    ensures ThreeOptional(J.JObj([J.Field("type", J.JStr(name))]), idKey) == Ok((None, None, None))
  {
    assert "type"[0] != "path"[0];
  }

  lemma ReadOnlyId(name: string, idKey: string, v: string)
    requires idKey in {"imageId", "voiceId"}
    ensures ThreeOptional(J.JObj([J.Field("type", J.JStr(name)), J.Field(idKey, J.JStr(v))]), idKey)
      == Ok((Some(v), None, None))
  {
    J.LookupAt([J.Field("type", J.JStr(name)), J.Field(idKey, J.JStr(v))], 1, idKey);
    assert "type"[0] != "path"[0];
  }

  lemma ReadOnlyUrl(name: string, idKey: string, v: string)
    requires idKey in {"imageId", "voiceId"}
    ensures ThreeOptional(J.JObj([J.Field("type", J.JStr(name)), J.Field("url", J.JStr(v))]), idKey)
      == Ok((None, Some(v), None))
  {
    J.LookupAt([J.Field("type", J.JStr(name)), J.Field("url", J.JStr(v))], 1, "url");
    assert "type"[0] != "path"[0];
  }

  lemma ReadOnlyPath(name: string, idKey: string, v: string)
    requires idKey in {"imageId", "voiceId"}
    ensures ThreeOptional(J.JObj([J.Field("type", J.JStr(name)), J.Field("path", J.JStr(v))]), idKey)
      == Ok((None, None, Some(v)))
  {
    assert "type"[0] != "path"[0];
    J.LookupAt([J.Field("type", J.JStr(name)), J.Field("path", J.JStr(v))], 1, "path");
  }

  /** Reading the three optional fields back from an object holding the type and at
      most the first present one. */
  lemma ReadFirstPresent(name: string, idKey: string, id: Option<string>, u: Option<string>, p: Option<string>)
    requires idKey in {"imageId", "voiceId"}
    ensures ThreeOptional(J.JObj([J.Field("type", J.JStr(name))] + FirstPresentFields(idKey, id, u, p)), idKey)
      == Ok((id, if id.Some? then None else u, if id.Some? || u.Some? then None else p))
  {
    var ty := J.Field("type", J.JStr(name));
    var fs := [ty] + FirstPresentFields(idKey, id, u, p);
    if id.Some? {
      assert fs == [ty, J.Field(idKey, J.JStr(id.value))];
      ReadOnlyId(name, idKey, id.value);
    } else if u.Some? {
      assert fs == [ty, J.Field("url", J.JStr(u.value))];
      ReadOnlyUrl(name, idKey, u.value);
    } else if p.Some? {
      assert fs == [ty, J.Field("path", J.JStr(p.value))];
      ReadOnlyPath(name, idKey, p.value);
    } else {
      assert fs == [ty];
      ReadOnlyType(name, idKey);
    }
  }

  lemma ImageRoundTrip(id: Option<string>, u: Option<string>, p: Option<string>)
    ensures SegmentFromJson(SegmentTree(Image(id, u, p))) == Ok(KeepFirstPresent(Image(id, u, p)))
  {
    var s := Image(id, u, p);
    ReadTypeName(s);
    assert SegmentTree(s) == J.JObj([J.Field("type", J.JStr("Image"))] + FirstPresentFields("imageId", id, u, p));
    ReadFirstPresent("Image", "imageId", id, u, p);
  }

  lemma FlashImageRoundTrip(id: Option<string>, u: Option<string>, p: Option<string>)
    ensures SegmentFromJson(SegmentTree(FlashImage(id, u, p))) == Ok(KeepFirstPresent(FlashImage(id, u, p)))
  {
    var s := FlashImage(id, u, p);
    ReadTypeName(s);
    assert SegmentTree(s) == J.JObj([J.Field("type", J.JStr("FlashImage"))] + FirstPresentFields("imageId", id, u, p));
    ReadFirstPresent("FlashImage", "imageId", id, u, p);
  }

  lemma VoiceRoundTrip(id: Option<string>, u: Option<string>, p: Option<string>)
    ensures SegmentFromJson(SegmentTree(Voice(id, u, p))) == Ok(KeepFirstPresent(Voice(id, u, p)))
  {
    var s := Voice(id, u, p);
    ReadTypeName(s);
    assert SegmentTree(s) == J.JObj([J.Field("type", J.JStr("Voice"))] + FirstPresentFields("voiceId", id, u, p));
    ReadFirstPresent("Voice", "voiceId", id, u, p);
  }

  /** Image, FlashImage and Voice read back with only their first present field, which
      is equal to the original under segment equality. */
  lemma MediaRoundTrip(s: Segment)
    requires s.Image? || s.FlashImage? || s.Voice?
    ensures SegmentFromJson(SegmentTree(s)) == Ok(KeepFirstPresent(s))
    ensures SegmentEq(SegmentFromJson(SegmentTree(s)).value, s)
  {
    match s
    case Image(id, u, p) => ImageRoundTrip(id, u, p);
    case FlashImage(id, u, p) => FlashImageRoundTrip(id, u, p);
    case Voice(id, u, p) => VoiceRoundTrip(id, u, p);
  }

  /** Every segment the writer produces reads back as a segment equal to it, except
      At, whose display text is lost, a face without a name or with a negative id, and
      a forwarded element that does not name its own type. */
  lemma WrittenSegmentReadsBack(s: Segment)
    requires !s.At? && !(s.Face? && (s.name.None? || (s.faceId.Some? && s.faceId.value < 0)))
    requires s.Forward? ==> J.GetString(J.Lookup(s.raw, "type")) == Ok("Forward")
    ensures SegmentFromJson(W.ToTree(SegmentWritable(s))).Ok?
    ensures SegmentEq(SegmentFromJson(W.ToTree(SegmentWritable(s))).value, s)
    ensures RoundTripsExactly(s) ==> SegmentFromJson(W.ToTree(SegmentWritable(s))) == Ok(s)
  {
    SegmentTreeDenoted(s);
    if s.Image? || s.FlashImage? || s.Voice? {
      MediaRoundTrip(s);
    } else if s.Face? {
      FaceRoundTrip(s);
    } else if s.Forward? {
      assert SegmentTree(s) == s.raw;
    } else {
      TextKindRoundTrip(s);
    }
  }
}
