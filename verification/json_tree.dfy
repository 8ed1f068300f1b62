/** The parsed JSON document the decoders read, and the typed accessors the library
    applies to it: field lookup by key, conversions to string, integer and bool,
    and the optional and vector conversions. Floating point is not modelled. */
module JsonTree {
  import opened Wrappers
  import opened Ids

  /** An object keeps its fields in document order; lookup returns the first field
      with the requested key. */
  datatype Json =
    | JNull
    | JBool(b: bool)
    | JInt(n: int)
    | JStr(s: string)
    | JArr(elems: seq<Json>)
    | JObj(fields: seq<Field>)

  datatype Field = Field(key: string, value: Json)

  /** Index of the first field named `key`. */
  function FirstKey(fields: seq<Field>, key: string): (r: Option<nat>)
    ensures r.Some? ==> r.value < |fields| && fields[r.value].key == key
    ensures r.Some? ==> forall i :: 0 <= i < r.value ==> fields[i].key != key
    ensures r.None? ==> forall i :: 0 <= i < |fields| ==> fields[i].key != key
  {
    if |fields| == 0 then None
    else if fields[0].key == key then Some(0)
    else match FirstKey(fields[1..], key)
      case None => None
      case Some(i) => Some(i + 1)
  }

  /** `element["key"]`: the value of the first field with that key; an error when the
      field is missing or the element is not an object. */
  function Lookup(j: Json, key: string): (r: Result<Json>)
    ensures r.Ok? <==> j.JObj? && FirstKey(j.fields, key).Some?
    ensures r.Ok? ==> r.value == j.fields[FirstKey(j.fields, key).value].value
    ensures j.JObj? && r.Fail? ==> r.error == NoSuchField(key)
    ensures !j.JObj? ==> r == Fail(IncorrectType)
  {
    if !j.JObj? then Fail(IncorrectType)
    else match FirstKey(j.fields, key)
      case None => Fail(NoSuchField(key))
      case Some(i) => Ok(j.fields[i].value)
  }

  /** A field is found when no earlier field has its key. */
  lemma LookupAt(fields: seq<Field>, i: nat, key: string)
    requires i < |fields| && fields[i].key == key
    requires forall k :: 0 <= k < i ==> fields[k].key != key
    ensures Lookup(JObj(fields), key) == Ok(fields[i].value)
  {
    var r := FirstKey(fields, key);
    assert r.Some?;
    assert !(r.value < i);
  }

  /** Conversion of a lookup result to a string; errors propagate. */
  function GetString(r: Result<Json>): (v: Result<string>)
    ensures v.Ok? <==> r.Ok? && r.value.JStr?
    ensures v.Ok? ==> v.value == r.value.s
    ensures r.Fail? ==> v == Fail(r.error)
  {
    if r.Fail? then Fail(r.error)
    else if r.value.JStr? then Ok(r.value.s)
    else Fail(IncorrectType)
  }

  function GetBool(r: Result<Json>): (v: Result<bool>)
    ensures v.Ok? <==> r.Ok? && r.value.JBool?
    ensures v.Ok? ==> v.value == r.value.b
    ensures r.Fail? ==> v == Fail(r.error)
  {
    if r.Fail? then Fail(r.error)
    else if r.value.JBool? then Ok(r.value.b)
    else Fail(IncorrectType)
  }

  /** `get_int64`: a number that fits in 64 signed bits. */
  function GetInt64(r: Result<Json>): (v: Result<i64>)
    ensures v.Ok? <==> r.Ok? && r.value.JInt? && -0x8000_0000_0000_0000 <= r.value.n < 0x8000_0000_0000_0000
    ensures v.Ok? ==> v.value as int == r.value.n
    ensures r.Fail? ==> v == Fail(r.error)
  {
    if r.Fail? then Fail(r.error)
    else if !r.value.JInt? then Fail(IncorrectType)
    else if -0x8000_0000_0000_0000 <= r.value.n < 0x8000_0000_0000_0000 then Ok(r.value.n as i64)
    else Fail(NumberOutOfRange)
  }

  /** `get_uint64`: a number that fits in 64 unsigned bits. */
  function GetUint64(r: Result<Json>): (v: Result<nat>)
    ensures v.Ok? <==> r.Ok? && r.value.JInt? && 0 <= r.value.n < UInt64Limit
    ensures v.Ok? ==> v.value == r.value.n
    ensures r.Fail? ==> v == Fail(r.error)
  {
    if r.Fail? then Fail(r.error)
    else if !r.value.JInt? then Fail(IncorrectType)
    else if 0 <= r.value.n < UInt64Limit then Ok(r.value.n)
    else Fail(NumberOutOfRange)
  }

  /** Conversion to int32_t: read as int64, then narrowed with static_cast. */
  function GetInt32(r: Result<Json>): (v: Result<i32>)
    ensures v.Ok? <==> GetInt64(r).Ok?
    ensures v.Ok? ==> (v.value as int - r.value.n) % 0x1_0000_0000 == 0
    ensures v.Ok? && -0x8000_0000 <= r.value.n < 0x8000_0000 ==> v.value as int == r.value.n
  {
    var x :- GetInt64(r);
    Ok(Wrap32(x as int))
  }

  /** Conversion to uint32_t: read as uint64, then narrowed with static_cast. */
  function GetUint32(r: Result<Json>): (v: Result<nat>)
    ensures v.Ok? <==> GetUint64(r).Ok?
    ensures v.Ok? ==> v.value == r.value.n % 0x1_0000_0000
  {
    var x :- GetUint64(r);
    Ok(x % 0x1_0000_0000)
  }

  /** True when a lookup found nothing or found null. */
  predicate MissingOrNull(r: Result<Json>)
  {
    (r.Fail? && r.error.NoSuchField?) || r == Ok(JNull)
  }

  /** The optional conversion: empty on a missing field or null, otherwise the inner
      conversion, whose errors propagate. */
  function GetOptional<T>(r: Result<Json>, convert: Result<Json> -> Result<T>): (v: Result<Option<T>>)
    ensures MissingOrNull(r) ==> v == Ok(None)
    ensures !MissingOrNull(r) ==> (v.Ok? <==> convert(r).Ok?)
    ensures !MissingOrNull(r) && v.Ok? ==> v.value == Some(convert(r).value)
  {
    if MissingOrNull(r) then Ok(None)
    else
      var x :- convert(r);
      Ok(Some(x))
  }

  function GetOptionalString(r: Result<Json>): Result<Option<string>>
  {
    GetOptional(r, GetString)
  }

  function GetOptionalBool(r: Result<Json>): Result<Option<bool>>
  {
    GetOptional(r, GetBool)
  }

  function GetOptionalInt32(r: Result<Json>): Result<Option<i32>>
  {
    GetOptional(r, GetInt32)
  }

  /** Element-wise conversion of a sequence of elements; the first failure is thrown. */
  function ConvertAll<T>(elems: seq<Json>, convert: Json -> Result<T>): (v: Result<seq<T>>)
    ensures v.Ok? <==> forall i :: 0 <= i < |elems| ==> convert(elems[i]).Ok?
    ensures v.Ok? ==> |v.value| == |elems|
    ensures v.Ok? ==> forall i :: 0 <= i < |elems| ==> convert(elems[i]) == Ok(v.value[i])
  {
    if |elems| == 0 then Ok([])
    else
      var head :- convert(elems[0]);
      var tail :- ConvertAll(elems[1..], convert);
      assert forall i :: 1 <= i < |elems| ==> elems[i] == elems[1..][i - 1];
      Ok([head] + tail)
  }

  /** Converting elements that each convert to the corresponding value. */
  lemma {:induction false} ConvertAllExact<T>(elems: seq<Json>, convert: Json -> Result<T>, vs: seq<T>)
    requires |elems| == |vs|
    requires forall i :: 0 <= i < |vs| ==> convert(elems[i]) == Ok(vs[i])
    ensures ConvertAll(elems, convert) == Ok(vs)
  {
    if |vs| > 0 {
      ConvertAllExact(elems[1..], convert, vs[1..]);
      assert [vs[0]] + vs[1..] == vs;
    }
  }

  /** Converting one more element: the first failure, in order, is the one reported. */
  lemma {:induction false} ConvertAllSnoc<T>(elems: seq<Json>, x: Json, convert: Json -> Result<T>)
    ensures ConvertAll(elems + [x], convert) ==
      (if ConvertAll(elems, convert).Fail? then Fail(ConvertAll(elems, convert).error)
       else if convert(x).Fail? then Fail(convert(x).error)
       else Ok(ConvertAll(elems, convert).value + [convert(x).value]))
  {
    if |elems| == 0 {
      assert elems + [x] == [x];
      assert [x][1..] == [];
      assert ConvertAll([x][1..], convert) == Ok([]);
      if convert(x).Ok? {
        assert [] + [convert(x).value] == [convert(x).value] + [];
      }
    } else {
      assert (elems + [x])[0] == elems[0];
      assert (elems + [x])[1..] == elems[1..] + [x];
      ConvertAllSnoc(elems[1..], x, convert);
      if convert(elems[0]).Ok? && ConvertAll(elems[1..], convert).Ok? && convert(x).Ok? {
        assert [convert(elems[0]).value] + (ConvertAll(elems[1..], convert).value + [convert(x).value])
          == ([convert(elems[0]).value] + ConvertAll(elems[1..], convert).value) + [convert(x).value];
      }
    }
  }

  /** Converting a prefix one element longer. */
  lemma ConvertAllStep<T>(elems: seq<Json>, i: nat, convert: Json -> Result<T>, vs: seq<T>)
    requires i < |elems| && ConvertAll(elems[..i], convert) == Ok(vs)
    ensures convert(elems[i]).Fail? ==> ConvertAll(elems[..i + 1], convert) == Fail(convert(elems[i]).error)
    ensures convert(elems[i]).Ok? ==> ConvertAll(elems[..i + 1], convert) == Ok(vs + [convert(elems[i]).value])
  {
    assert elems[..i + 1] == elems[..i] + [elems[i]];
    ConvertAllSnoc(elems[..i], elems[i], convert);
  }

  /** Once a prefix fails, converting the whole sequence fails with the same error. */
  lemma {:induction false} ConvertAllPrefixFails<T>(elems: seq<Json>, n: nat, convert: Json -> Result<T>)
    requires n <= |elems| && ConvertAll(elems[..n], convert).Fail?
    ensures ConvertAll(elems, convert) == Fail(ConvertAll(elems[..n], convert).error)
    decreases |elems| - n
  {
    if n == |elems| {
      assert elems[..n] == elems;
    } else {
      assert elems[..n + 1] == elems[..n] + [elems[n]];
      ConvertAllSnoc(elems[..n], elems[n], convert);
      ConvertAllPrefixFails(elems, n + 1, convert);
    }
  }

  /** The vector conversion: an array's elements converted in order. */
  function GetArray<T>(r: Result<Json>, convert: Json -> Result<T>): (v: Result<seq<T>>)
    ensures v.Ok? ==> r.Ok? && r.value.JArr? && |v.value| == |r.value.elems|
    ensures v.Ok? ==> forall i :: 0 <= i < |v.value| ==> convert(r.value.elems[i]) == Ok(v.value[i])
  {
    if r.Fail? then Fail(r.error)
    else if !r.value.JArr? then Fail(IncorrectType)
    else ConvertAll(r.value.elems, convert)
  }
}
