/** The library's own JSON text writer: string quoting, the object and array scopes
    that insert separators, and the generic writer over integers, booleans, strings,
    vectors, optionals and serialisable objects. `ToTree` gives the document a
    written value denotes, which is how round trips with the readers are stated. */
module JsonWriter {
  import opened Wrappers
  import opened JsonTree

  /** The text written for one character inside a quoted string. Only five control
      characters are escaped; quotes and backslashes are copied unchanged. */
  const Backspace: char := '\U{8}'
  const FormFeed: char := '\U{C}'

  /** The five characters the writer escapes. */
  const Escaped: string := [Backspace, FormFeed, '\n', '\r', '\t']

  function EscapeChar(c: char): (t: string)
    ensures |t| == 1 <==> c !in Escaped
    ensures |t| == 1 ==> t == [c]
    ensures |t| != 1 ==> |t| == 2 && t[0] == '\\'
  {
    if c == Backspace then "\\b"
    else if c == FormFeed then "\\f"
    else if c == '\n' then "\\n"
    else if c == '\r' then "\\r"
    else if c == '\t' then "\\t"
    else [c]
  }

  function Escape(s: string): (t: string)
    ensures |t| >= |s|
  {
    if |s| == 0 then "" else EscapeChar(s[0]) + Escape(s[1..])
  }

  /** A string value as written: the escaped content between double quotes. */
  function Quote(s: string): (t: string)
    ensures |t| >= 2 && t[0] == '"' && t[|t| - 1] == '"'
    ensures t[1..|t| - 1] == Escape(s)
  {
    "\"" + Escape(s) + "\""
  }

  /** A string with none of the five escaped characters is written verbatim. */
  lemma {:induction false} EscapeIdentity(s: string)
    requires forall i :: 0 <= i < |s| ==> s[i] !in Escaped
    ensures Escape(s) == s
  {
    if |s| > 0 {
      EscapeIdentity(s[1..]);
    }
  }

  lemma {:induction false} EscapeAppend(a: string, b: string)
    ensures Escape(a + b) == Escape(a) + Escape(b)
  {
    if |a| == 0 {
      assert a + b == b;
    } else {
      assert (a + b)[1..] == a[1..] + b;
      EscapeAppend(a[1..], b);
    }
  }

  /** Reading back the escapes the writer produces: a backslash followed by one of
      b, f, n, r, t stands for that control character; every other character stands
      for itself. */
  function Unescape(t: string): (s: string)
    ensures |s| <= |t|
  {
    if |t| == 0 then ""
    else if |t| >= 2 && t[0] == '\\' && t[1] in "bfnrt" then
      [ControlFor(t[1])] + Unescape(t[2..])
    else [t[0]] + Unescape(t[1..])
  }

  function ControlFor(letter: char): char
    requires letter in "bfnrt"
  {
    match letter
    case 'b' => Backspace
    case 'f' => FormFeed
    case 'n' => '\n'
    case 'r' => '\r'
    case _ => '\t'
  }

  /** Each two-character escape names the control character it replaces. */
  lemma ControlForEscape(c: char)
    requires c in Escaped
    ensures EscapeChar(c)[1] in "bfnrt" && ControlFor(EscapeChar(c)[1]) == c
  {
  }

  lemma UnescapeOne(c: char, rest: string)
    requires c != '\\'
    ensures Unescape(EscapeChar(c) + rest) == [c] + Unescape(rest)
  {
    var e := EscapeChar(c);
    if |e| == 1 {
      assert (e + rest)[1..] == rest;
    } else {
      ControlForEscape(c);
      assert (e + rest)[2..] == rest;
    }
  }

  /** Escaping is undone by reading the escapes back, provided the text contains no
      backslash of its own. */
  lemma {:induction false} UnescapeEscape(s: string)
    requires forall i :: 0 <= i < |s| ==> s[i] != '\\'
    ensures Unescape(Escape(s)) == s
  {
    if |s| > 0 {
      UnescapeEscape(s[1..]);
      UnescapeOne(s[0], Escape(s[1..]));
      assert [s[0]] + s[1..] == s;
    }
  }

  /** Escaping introduces no double quote. */
  lemma {:induction false} EscapeNoQuote(s: string)
    requires forall i :: 0 <= i < |s| ==> s[i] != '"'
    ensures forall i :: 0 <= i < |Escape(s)| ==> Escape(s)[i] != '"'
  {
    if |s| > 0 {
      EscapeNoQuote(s[1..]);
      var e := EscapeChar(s[0]);
      assert forall i :: 0 <= i < |e| ==> e[i] != '"';
    }
  }

  /** A string with no double quote and no backslash of its own is written as a
      string token that ends at the writer's closing quote and reads back as that
      string: for such strings the written text means the tree `ToTree` gives. */
  lemma QuoteReadsBack(s: string)
    requires forall i :: 0 <= i < |s| ==> s[i] != '"' && s[i] != '\\'
    ensures forall i :: 1 <= i < |Quote(s)| - 1 ==> Quote(s)[i] != '"'
    ensures Unescape(Quote(s)[1..|Quote(s)| - 1]) == s
  {
    EscapeNoQuote(s);
    UnescapeEscape(s);
  }

  /** Because backslashes are not escaped, the quoting is not injective: a newline
      and the two characters backslash, n are written identically. */
  lemma QuoteNotInjective()
    ensures exists s1: string, s2: string :: s1 != s2 && Quote(s1) == Quote(s2)
  {
    var s1, s2 := "\n", "\\n";
    assert Escape(s1) == "\\n" by {
      assert s1[1..] == "";
    }
    assert Escape(s2) == "\\n" by {
      assert s2[1..] == "n";
      assert s2[1..][1..] == "";
    }
    assert s1 != s2 by {
      assert |s1| != |s2|;
    }
    assert Quote(s1) == Quote(s2);
  }

  /** The quoting JSON needs: a quote and a backslash are escaped as well. */
  function EscapeCharIntended(c: char): (t: string)
    ensures |t| == 1 <==> c !in Escaped && c != '"' && c != '\\'
    ensures |t| == 1 ==> t == [c]
    ensures |t| != 1 ==> |t| == 2 && t[0] == '\\'
  {
    if c == '"' then "\\\"" else if c == '\\' then "\\\\" else EscapeChar(c)
  }

  function EscapeIntended(s: string): (t: string)
    ensures |t| >= |s|
  {
    if |s| == 0 then "" else EscapeCharIntended(s[0]) + EscapeIntended(s[1..])
  }

  function QuoteIntended(s: string): (t: string)
    ensures |t| >= 2 && t[0] == '"' && t[|t| - 1] == '"'
    ensures t[1..|t| - 1] == EscapeIntended(s)
  {
    "\"" + EscapeIntended(s) + "\""
  }

  /** Reading back all seven escapes a JSON string may use here. */
  function UnescapeJson(t: string): (s: string)
    ensures |s| <= |t|
  {
    if |t| == 0 then ""
    else if |t| >= 2 && t[0] == '\\' && t[1] in "bfnrt\"\\" then
      [EscapedBy(t[1])] + UnescapeJson(t[2..])
    else [t[0]] + UnescapeJson(t[1..])
  }

  function EscapedBy(letter: char): char
    requires letter in "bfnrt\"\\"
  {
    if letter in "bfnrt" then ControlFor(letter) else letter
  }

  lemma UnescapeJsonOne(c: char, rest: string)
    ensures UnescapeJson(EscapeCharIntended(c) + rest) == [c] + UnescapeJson(rest)
  {
    var e := EscapeCharIntended(c);
    if |e| == 1 {
      assert (e + rest)[1..] == rest;
    } else {
      if c in Escaped {
        ControlForEscape(c);
      }
      assert (e + rest)[2..] == rest;
    }
  }

  /** Every string, backslashes and quotes included, is read back as written. */
  lemma {:induction false} UnescapeEscapeIntended(s: string)
    ensures UnescapeJson(EscapeIntended(s)) == s
  {
    if |s| > 0 {
      UnescapeEscapeIntended(s[1..]);
      UnescapeJsonOne(s[0], EscapeIntended(s[1..]));
      assert [s[0]] + s[1..] == s;
    }
  }

  /** With the corrected escapes, different strings are written differently. */
  lemma QuoteIntendedInjective(s1: string, s2: string)
    ensures QuoteIntended(s1) == QuoteIntended(s2) <==> s1 == s2
  {
    if QuoteIntended(s1) == QuoteIntended(s2) {
      var t := QuoteIntended(s1);
      assert EscapeIntended(s1) == t[1..|t| - 1] == EscapeIntended(s2);
      UnescapeEscapeIntended(s1);
      UnescapeEscapeIntended(s2);
    }
  }

  /** Decimal text of an integer, as `{}` formats it. */
  function DigitChar(d: nat): char
    requires d < 10
  {
    "0123456789"[d]
  }

  function NatText(n: nat): (t: string)
    ensures |t| >= 1
    ensures forall i :: 0 <= i < |t| ==> t[i] in "0123456789"
    ensures n >= 10 ==> t[0] != '0'
  {
    if n < 10 then [DigitChar(n)] else NatText(n / 10) + [DigitChar(n % 10)]
  }

  function IntText(n: int): (t: string)
    ensures |t| >= 1
    ensures t[0] == '-' <==> n < 0
  {
    if n < 0 then "-" + NatText(-n) else NatText(n)
  }

  function DigitValue(c: char): (d: nat)
    requires c in "0123456789"
    ensures d < 10
  {
    if c == '0' then 0 else if c == '1' then 1 else if c == '2' then 2 else if c == '3' then 3
    else if c == '4' then 4 else if c == '5' then 5 else if c == '6' then 6 else if c == '7' then 7
    else if c == '8' then 8 else 9
  }

  lemma DigitValueOfDigitChar(d: nat)
    requires d < 10
    ensures DigitValue(DigitChar(d)) == d
  {
  }

  /** Value of a run of decimal digits: the reader's side of `NatText`. */
  function DigitsValue(t: string): nat
    requires forall i :: 0 <= i < |t| ==> t[i] in "0123456789"
  {
    if |t| == 0 then 0 else DigitsValue(t[..|t| - 1]) * 10 + DigitValue(t[|t| - 1])
  }

  lemma {:induction false} NatTextRoundTrip(n: nat)
    ensures DigitsValue(NatText(n)) == n
  {
    var t := NatText(n);
    if n < 10 {
      DigitValueOfDigitChar(n);
      assert t[..0] == [];
    } else {
      NatTextRoundTrip(n / 10);
      DigitValueOfDigitChar(n % 10);
      assert t[..|t| - 1] == NatText(n / 10);
      assert t[|t| - 1] == DigitChar(n % 10);
    }
  }

  /** A value the generic writer accepts. `WOpt` is `std::optional`, `WArr` a
      contiguous range, `WObj` a type with its own `format_as_json` that opens an
      object scope and adds its entries in order. */
  datatype Writable =
    | WInt(n: int)
    | WBool(b: bool)
    | WStr(s: string)
    | WArr(elems: seq<Writable>)
    | WOpt(opt: Option<Writable>)
    | WObj(entries: seq<Entry>)

  datatype Entry = Entry(key: string, value: Writable)

  /** The declarative text of a value: separators between, never before or after. */
  function Write(w: Writable): string
  {
    match w
    case WInt(n) => IntText(n)
    case WBool(b) => if b then "true" else "false"
    case WStr(s) => Quote(s)
    case WArr(es) => "[" + WriteElems(es) + "]"
    case WOpt(o) => if o.Some? then Write(o.value) else "null"
    case WObj(es) => "{" + WriteEntries(es) + "}"
  }

  function WriteElems(es: seq<Writable>): string
  {
    if |es| == 0 then ""
    else if |es| == 1 then Write(es[0])
    else Write(es[0]) + "," + WriteElems(es[1..])
  }

  function EntryText(e: Entry): string
  {
    "\"" + e.key + "\":" + Write(e.value)
  }

  function WriteEntries(es: seq<Entry>): string
  {
    if |es| == 0 then ""
    else if |es| == 1 then EntryText(es[0])
    else EntryText(es[0]) + "," + WriteEntries(es[1..])
  }

  lemma SingleEntryObject(e: Entry)
    ensures Write(WObj([e])) == "{" + EntryText(e) + "}"
  {
    assert WriteEntries([e]) == EntryText(e);
  }

  /** The state of an open object or array scope: the text so far and whether an
      entry has been added yet. */
  datatype Scope = Scope(out: string, first: bool)

  function OpenObject(out: string): Scope
  {
    Scope(out + "{", true)
  }

  function AddEntry(sc: Scope, e: Entry): (r: Scope)
    ensures !r.first
    ensures sc.out <= r.out
  {
    Scope(sc.out + (if sc.first then "" else ",") + EntryText(e), false)
  }

  function CloseScope(sc: Scope, closer: string): string
  {
    sc.out + closer
  }

  function AddEntries(sc: Scope, es: seq<Entry>): Scope
    decreases |es|
  {
    if |es| == 0 then sc else AddEntries(AddEntry(sc, es[0]), es[1..])
  }

  function OpenArray(out: string): Scope
  {
    Scope(out + "[", true)
  }

  function AddElement(sc: Scope, w: Writable): (r: Scope)
    ensures !r.first
    ensures sc.out <= r.out
  {
    Scope(sc.out + (if sc.first then "" else ",") + Write(w), false)
  }

  function AddElements(sc: Scope, ws: seq<Writable>): Scope
    decreases |ws|
  {
    if |ws| == 0 then sc else AddElements(AddElement(sc, ws[0]), ws[1..])
  }

  lemma {:induction false} AddEntriesText(sc: Scope, es: seq<Entry>)
    ensures AddEntries(sc, es).out ==
      sc.out + (if |es| == 0 || sc.first then "" else ",") + WriteEntries(es)
    ensures AddEntries(sc, es).first == (sc.first && |es| == 0)
    decreases |es|
  {
    if |es| > 0 {
      var sc' := AddEntry(sc, es[0]);
      AddEntriesText(sc', es[1..]);
    }
  }

  lemma {:induction false} AddElementsText(sc: Scope, ws: seq<Writable>)
    ensures AddElements(sc, ws).out ==
      sc.out + (if |ws| == 0 || sc.first then "" else ",") + WriteElems(ws)
    ensures AddElements(sc, ws).first == (sc.first && |ws| == 0)
    decreases |ws|
  {
    if |ws| > 0 {
      var sc' := AddElement(sc, ws[0]);
      AddElementsText(sc', ws[1..]);
    }
  }

  /** Opening an object scope, adding the entries one by one and closing it writes
      exactly the declarative object text. */
  lemma ObjectScopeWritesObject(out: string, es: seq<Entry>)
    ensures CloseScope(AddEntries(OpenObject(out), es), "}") == out + Write(WObj(es))
  {
    AddEntriesText(OpenObject(out), es);
  }

  /** The text of an object built with a fresh scope: braces around the entries. */
  function ObjectJson(es: seq<Entry>): (t: string)
    ensures t == Write(WObj(es))
    ensures t[0] == '{' && t[|t| - 1] == '}'
  {
    ObjectScopeWritesObject("", es);
    assert "" + Write(WObj(es)) == Write(WObj(es));
    CloseScope(AddEntries(OpenObject(""), es), "}")
  }

  /** The same for an array scope. */
  lemma ArrayScopeWritesArray(out: string, ws: seq<Writable>)
    ensures CloseScope(AddElements(OpenArray(out), ws), "]") == out + Write(WArr(ws))
  {
    AddElementsText(OpenArray(out), ws);
  }

  /** The document a written value denotes: an empty optional is null, a present one
      is its content. */
  function ToTree(w: Writable): Json
  {
    match w
    case WInt(n) => JInt(n)
    case WBool(b) => JBool(b)
    case WStr(s) => JStr(s)
    case WArr(es) => JArr(ToTrees(es))
    case WOpt(o) => if o.Some? then ToTree(o.value) else JNull
    case WObj(es) => JObj(ToFields(es))
  }

  function ToTrees(es: seq<Writable>): (r: seq<Json>)
    ensures |r| == |es|
    ensures forall i :: 0 <= i < |es| ==> r[i] == ToTree(es[i])
  {
    if |es| == 0 then [] else [ToTree(es[0])] + ToTrees(es[1..])
  }

  function ToFields(es: seq<Entry>): (r: seq<Field>)
    ensures |r| == |es|
    ensures forall i :: 0 <= i < |es| ==> r[i] == Field(es[i].key, ToTree(es[i].value))
  {
    if |es| == 0 then [] else [Field(es[0].key, ToTree(es[0].value))] + ToFields(es[1..])
  }

  /** A writable value for an already parsed document, used where the library keeps a
      raw element and writes it back. */
  function FromTree(j: Json): Writable
  {
    match j
    case JNull => WOpt(None)
    case JBool(b) => WBool(b)
    case JInt(n) => WInt(n)
    case JStr(s) => WStr(s)
    case JArr(es) => WArr(FromTrees(es))
    case JObj(fs) => WObj(FromFields(fs))
  }

  function FromTrees(es: seq<Json>): (r: seq<Writable>)
    ensures |r| == |es|
  {
    if |es| == 0 then [] else [FromTree(es[0])] + FromTrees(es[1..])
  }

  function FromFields(fs: seq<Field>): (r: seq<Entry>)
    ensures |r| == |fs|
  {
    if |fs| == 0 then [] else [Entry(fs[0].key, FromTree(fs[0].value))] + FromFields(fs[1..])
  }

  /** Every document is denoted by the writable value built from it. */
  lemma {:induction false} FromTreeDenotes(j: Json)
    ensures ToTree(FromTree(j)) == j
    decreases j, 1
  {
    match j
    case JArr(es) => FromTreesDenote(es);
    case JObj(fs) => FromFieldsDenote(fs);
    case _ =>
  }

  lemma {:induction false} FromTreesDenote(es: seq<Json>)
    ensures ToTrees(FromTrees(es)) == es
    decreases es, 0
  {
    if |es| > 0 {
      FromTreeDenotes(es[0]);
      FromTreesDenote(es[1..]);
    }
  }

  lemma {:induction false} FromFieldsDenote(fs: seq<Field>)
    ensures ToFields(FromFields(fs)) == fs
    decreases fs, 0
  {
    if |fs| > 0 {
      FromTreeDenotes(fs[0].value);
      FromFieldsDenote(fs[1..]);
    }
  }

  /** Reading a written optional back with the optional conversion gives the optional. */
  lemma OptionalStringRoundTrip(o: Option<string>)
    ensures GetOptionalString(Ok(ToTree(WOpt(if o.Some? then Some(WStr(o.value)) else None)))) == Ok(o)
  {
  }
}
