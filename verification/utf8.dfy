/** The UTF-8 encoding of text, as `std::string` and `std::string_view` hold it: the
    message text tests measure and cut strings in these bytes, not in characters. */
module Utf8 {

  type byte = x: int | 0 <= x < 0x100

  /** A byte that starts the encoding of a character (anything but 10xxxxxx). */
  predicate IsLead(b: byte)
  {
    !(0x80 <= b < 0xC0)
  }

  /** The number of bytes a sequence starting with lead byte `b` occupies. */
  function LeadLength(b: byte): nat
  {
    if b < 0x80 then 1 else if b < 0xE0 then 2 else if b < 0xF0 then 3 else 4
  }

  /** The encoding of one character: one byte below U+0080, two below U+0800, three
      below U+10000, four above; every byte after the first is a continuation. */
  function EncodeChar(c: char): (r: seq<byte>)
    ensures 1 <= |r| <= 4
    ensures IsLead(r[0]) && LeadLength(r[0]) == |r|
    ensures forall i :: 1 <= i < |r| ==> !IsLead(r[i])
  {
    var v := c as int;
    var q1 := v / 64;
    var q2 := q1 / 64;
    var q3 := q2 / 64;
    if v < 0x80 then [v]
    else if v < 0x800 then [0xC0 + q1, 0x80 + v % 64]
    else if v < 0x1_0000 then [0xE0 + q2, 0x80 + q1 % 64, 0x80 + v % 64]
    else [0xF0 + q3, 0x80 + q2 % 64, 0x80 + q1 % 64, 0x80 + v % 64]
  }

  /** The code point an encoding of `|r|` bytes carries. */
  function DecodeChar(r: seq<byte>): int
    requires 1 <= |r| <= 4
  {
    var b0 := r[0] as int;
    if |r| == 1 then b0
    else if |r| == 2 then (b0 - 0xC0) * 64 + (r[1] as int - 0x80)
    else if |r| == 3 then ((b0 - 0xE0) * 64 + (r[1] as int - 0x80)) * 64 + (r[2] as int - 0x80)
    else (((b0 - 0xF0) * 64 + (r[1] as int - 0x80)) * 64 + (r[2] as int - 0x80)) * 64 + (r[3] as int - 0x80)
  }

  lemma DecodeEncodeChar(c: char)
    ensures DecodeChar(EncodeChar(c)) == c as int
  {
    var v := c as int;
    var q1 := v / 64;
    var q2 := q1 / 64;
    assert v == q1 * 64 + v % 64;
    assert q1 == q2 * 64 + q1 % 64;
    assert q2 == (q2 / 64) * 64 + q2 % 64;
  }

  /** Distinct characters have distinct encodings. */
  lemma EncodeCharInjective(a: char, b: char)
    requires EncodeChar(a) == EncodeChar(b)
    ensures a == b
  {
    DecodeEncodeChar(a);
    DecodeEncodeChar(b);
  }

  /** The encoding of a string, character by character. */
  function Encode(s: string): (r: seq<byte>)
    ensures |r| >= |s|
    ensures |s| > 0 ==> |r| > 0
  {
    if |s| == 0 then [] else Encode(s[..|s| - 1]) + EncodeChar(s[|s| - 1])
  }

  /** Encoding a concatenation concatenates the encodings. */
  lemma {:induction false} EncodeAppend(s: string, t: string)
    ensures Encode(s + t) == Encode(s) + Encode(t)
    decreases |t|
  {
    if |t| > 0 {
      var t' := t[..|t| - 1];
      assert (s + t)[..|s + t| - 1] == s + t';
      EncodeAppend(s, t');
    } else {
      assert s + t == s;
    }
  }

  lemma EncodeOne(c: char)
    ensures Encode([c]) == EncodeChar(c)
  {
    assert [c][..0] == [];
  }

  /** The encoding of a non-empty string ends with that of its last character. */
  lemma EncodeBack(s: string)
    requires |s| > 0
    ensures Encode(s) == Encode(s[..|s| - 1]) + EncodeChar(s[|s| - 1])
  {
  }

  /** The encoding of a non-empty string starts with that of its first character. */
  lemma EncodeFront(s: string)
    requires |s| > 0
    ensures Encode(s) == EncodeChar(s[0]) + Encode(s[1..])
  {
    var c, rest := s[0], s[1..];
    assert s == [c] + rest;
    EncodeAppend([c], rest);
    EncodeOne(c);
  }

  /** `s` ends `t`. */
  predicate IsSuffix<T(==)>(s: seq<T>, t: seq<T>)
  {
    |s| <= |t| && t[|t| - |s|..] == s
  }

  lemma SuffixOfAppend<T>(a: seq<T>, b: seq<T>)
    ensures IsSuffix(b, a + b)
  {
    assert (a + b)[|a|..] == b;
  }

  lemma SuffixTransitive<T>(s: seq<T>, t: seq<T>, u: seq<T>)
    requires IsSuffix(s, t) && IsSuffix(t, u)
    ensures IsSuffix(s, u)
  {
    assert u[|u| - |s|..] == u[|u| - |t|..][|t| - |s|..];
  }

  /** A common last part can be added to or removed from both sides of a suffix. */
  lemma SuffixCommonLast<T>(s: seq<T>, t: seq<T>, e: seq<T>)
    ensures IsSuffix(s + e, t + e) <==> IsSuffix(s, t)
  {
    if |s| <= |t| {
      assert (t + e)[|t + e| - |s + e|..] == t[|t| - |s|..] + e;
    }
    if IsSuffix(s + e, t + e) {
      assert t[|t| - |s|..] == (t + e)[|t + e| - |s + e|..][..|s|];
    }
  }

  /** Where the encoding of a character ending `t` begins: a lead byte followed only by
      continuation bytes. */
  lemma EndsWithChar(t: seq<byte>, c: char)
    requires IsSuffix(EncodeChar(c), t)
    ensures IsLead(t[|t| - |EncodeChar(c)|])
    ensures forall i :: |t| - |EncodeChar(c)| < i < |t| ==> !IsLead(t[i])
  {
    var e := EncodeChar(c);
    forall i | |t| - |e| <= i < |t|
      ensures t[i] == e[i - (|t| - |e|)]
    {
    }
  }

  /** Two encoded characters ending the same bytes are the same character: the last
      lead byte marks where both begin. */
  lemma SameLastChar(t: seq<byte>, a: char, b: char)
    requires IsSuffix(EncodeChar(a), t) && IsSuffix(EncodeChar(b), t)
    ensures a == b
  {
    EndsWithChar(t, a);
    EndsWithChar(t, b);
    assert |EncodeChar(a)| == |EncodeChar(b)|;
    EncodeCharInjective(a, b);
  }

  /** A string ending with `suffix` has bytes ending with the bytes of `suffix`. */
  lemma CharSuffixGivesByteSuffix(text: string, suffix: string)
    requires IsSuffix(suffix, text)
    ensures IsSuffix(Encode(suffix), Encode(text))
  {
    var p := text[..|text| - |suffix|];
    assert text == p + suffix;
    EncodeAppend(p, suffix);
    SuffixOfAppend(Encode(p), Encode(suffix));
  }

  /** One step back through two encodings, one ending the other: their last
      characters agree, and what precedes them still ends the same way. */
  lemma SuffixStep(q: seq<byte>, p: seq<byte>, b: char, a: char)
    requires IsSuffix(q + EncodeChar(b), p + EncodeChar(a))
    ensures a == b && IsSuffix(q, p)
  {
    SuffixOfAppend(q, EncodeChar(b));
    SuffixTransitive(EncodeChar(b), q + EncodeChar(b), p + EncodeChar(a));
    SuffixOfAppend(p, EncodeChar(a));
    SameLastChar(p + EncodeChar(a), a, b);
    SuffixCommonLast(q, p, EncodeChar(a));
  }

  /** Bytes ending with the bytes of `suffix` come from a string ending with `suffix`. */
  lemma {:induction false} ByteSuffixGivesCharSuffix(text: string, suffix: string)
    requires IsSuffix(Encode(suffix), Encode(text))
    ensures IsSuffix(suffix, text)
    decreases |suffix|
  {
    if |suffix| > 0 {
      var t', a := text[..|text| - 1], text[|text| - 1];
      var s', b := suffix[..|suffix| - 1], suffix[|suffix| - 1];
      EncodeBack(text);
      EncodeBack(suffix);
      SuffixStep(Encode(s'), Encode(t'), b, a);
      ByteSuffixGivesCharSuffix(t', s');
      SuffixCommonLast(s', t', [a]);
      assert text == t' + [a] && suffix == s' + [a];
    }
  }

  /** The bytes of `suffix` end the bytes of `text` exactly when `suffix` ends `text`:
      comparing the tails of the encodings is comparing the tails of the strings. */
  lemma ByteSuffixIsCharSuffix(text: string, suffix: string)
    ensures IsSuffix(Encode(suffix), Encode(text)) <==> IsSuffix(suffix, text)
  {
    if IsSuffix(suffix, text) {
      CharSuffixGivesByteSuffix(text, suffix);
    }
    if IsSuffix(Encode(suffix), Encode(text)) {
      ByteSuffixGivesCharSuffix(text, suffix);
    }
  }

  /** One step forward through two encodings, one beginning the other: their first
      characters agree, and what follows them still begins the same way. */
  lemma PrefixStep(q: seq<byte>, p: seq<byte>, b: char, a: char)
    requires EncodeChar(b) + q <= EncodeChar(a) + p
    ensures a == b && q <= p
  {
    var ea, eb := EncodeChar(a), EncodeChar(b);
    assert ea[0] == (ea + p)[0] == (eb + q)[0] == eb[0];
    assert ea == (ea + p)[..|ea|] == (eb + q)[..|eb|] == eb;
    EncodeCharInjective(a, b);
    assert q == (eb + q)[|eb|..] && p == (ea + p)[|ea|..];
  }

  /** Bytes beginning with the bytes of `prefix` come from a string beginning with
      `prefix`: the first lead byte fixes the length of the first character. */
  lemma {:induction false} BytePrefixGivesCharPrefix(text: string, prefix: string)
    requires Encode(prefix) <= Encode(text)
    ensures prefix <= text
    decreases |prefix|
  {
    if |prefix| > 0 {
      EncodeFront(text);
      EncodeFront(prefix);
      PrefixStep(Encode(prefix[1..]), Encode(text[1..]), prefix[0], text[0]);
      BytePrefixGivesCharPrefix(text[1..], prefix[1..]);
      assert prefix == [text[0]] + prefix[1..];
      assert text == [text[0]] + text[1..];
    }
  }

  /** The bytes of `prefix` begin the bytes of `text` exactly when `prefix` begins
      `text`. */
  lemma BytePrefixIsCharPrefix(text: string, prefix: string)
    ensures Encode(prefix) <= Encode(text) <==> prefix <= text
  {
    if prefix <= text {
      assert text == prefix + text[|prefix|..];
      EncodeAppend(prefix, text[|prefix|..]);
    }
    if Encode(prefix) <= Encode(text) {
      BytePrefixGivesCharPrefix(text, prefix);
    }
  }

  /** `needle` occurs in `text` at position `i`. */
  predicate OccursAt<T(==)>(text: seq<T>, needle: seq<T>, i: int)
  {
    0 <= i && i + |needle| <= |text| && text[i..i + |needle|] == needle
  }

  /** A lead byte in the encoding of `t` is where one of its characters begins. */
  lemma {:induction false} LeadIsBoundary(t: string, i: nat) returns (k: nat)
    requires i < |Encode(t)| && IsLead(Encode(t)[i])
    ensures k < |t| && |Encode(t[..k])| == i
    decreases |t|
  {
    var t', c := t[..|t| - 1], t[|t| - 1];
    EncodeBack(t);
    if i < |Encode(t')| {
      assert Encode(t)[i] == Encode(t')[i];
      k := LeadIsBoundary(t', i);
      assert t[..k] == t'[..k];
    } else {
      assert Encode(t)[i] == EncodeChar(c)[i - |Encode(t')|];
      k := |t| - 1;
      assert t[..k] == t';
    }
  }

  /** An occurrence of a string's characters gives an occurrence of its bytes, at the
      byte length of what precedes it. */
  lemma CharOccursGivesByteOccurs(t: string, n: string, k: nat)
    requires OccursAt(t, n, k)
    ensures OccursAt(Encode(t), Encode(n), |Encode(t[..k])|)
  {
    var p, q := t[..k], t[k + |n|..];
    assert t == p + n + q;
    EncodeAppend(p + n, q);
    EncodeAppend(p, n);
    var et := Encode(t);
    assert et[|Encode(p)|..|Encode(p)| + |Encode(n)|] == Encode(n);
  }

  /** The encoding of a non-empty string starts with a lead byte. */
  lemma StartsWithLead(n: string)
    requires |n| > 0
    ensures IsLead(Encode(n)[0])
  {
    EncodeFront(n);
    assert Encode(n)[0] == EncodeChar(n[0])[0];
  }

  /** An occurrence right where the first part ends is a prefix of the second part. */
  lemma OccursAtJoin<T>(a: seq<T>, b: seq<T>, n: seq<T>)
    requires OccursAt(a + b, n, |a|)
    ensures n <= b
  {
    assert (a + b)[|a|..|a| + |n|] == b[..|n|];
  }

  /** An occurrence of the bytes of a non-empty string starts at a character boundary
      and is an occurrence of its characters there. */
  lemma ByteOccursGivesCharOccurs(t: string, n: string, i: nat) returns (k: nat)
    requires |n| > 0 && OccursAt(Encode(t), Encode(n), i)
    ensures OccursAt(t, n, k) && |Encode(t[..k])| == i
  {
    StartsWithLead(n);
    assert Encode(t)[i] == Encode(n)[0];
    k := LeadIsBoundary(t, i);
    OccursAtBoundary(t, n, k);
  }

  /** A byte occurrence at the boundary before character `k` is a character
      occurrence at `k`. */
  lemma OccursAtBoundary(t: string, n: string, k: nat)
    requires k <= |t| && OccursAt(Encode(t), Encode(n), |Encode(t[..k])|)
    ensures OccursAt(t, n, k)
  {
    EncodeSplit(t, k);
    OccursAtJoin(Encode(t[..k]), Encode(t[k..]), Encode(n));
    BytePrefixIsCharPrefix(t[k..], n);
    assert t[k..k + |n|] == t[k..][..|n|];
  }

  lemma EncodeSplit(t: string, k: nat)
    requires k <= |t|
    ensures Encode(t) == Encode(t[..k]) + Encode(t[k..])
  {
    assert t == t[..k] + t[k..];
    EncodeAppend(t[..k], t[k..]);
  }

  /** The bytes of `n` occur in the bytes of `t` exactly when `n` occurs in `t`: a byte
      search of valid UTF-8 finds exactly the character occurrences. */
  lemma ByteInfixIsCharInfix(t: string, n: string)
    ensures (exists i :: OccursAt(Encode(t), Encode(n), i)) <==> (exists k :: OccursAt(t, n, k))
  {
    var bt, bn := Encode(t), Encode(n);
    if |n| == 0 {
      assert t[0..0] == n && bt[0..0] == bn;
      assert OccursAt(t, n, 0) && OccursAt(bt, bn, 0);
    } else {
      if k :| OccursAt(t, n, k) {
        CharOccursGivesByteOccurs(t, n, k);
        assert OccursAt(bt, bn, |Encode(t[..k])|);
      }
      if i :| OccursAt(bt, bn, i) {
        var k := ByteOccursGivesCharOccurs(t, n, i);
      }
    }
  }

  /** Text below U+0080 is encoded one byte per character, each its code point. */
  lemma {:induction false} EncodeAscii(s: string)
    requires forall i :: 0 <= i < |s| ==> s[i] as int < 0x80
    ensures |Encode(s)| == |s|
    ensures forall i :: 0 <= i < |s| ==> Encode(s)[i] == s[i] as int
  {
    if |s| > 0 {
      EncodeAscii(s[..|s| - 1]);
    }
  }

  /** "中" (U+4E2D) is one character of three bytes. */
  lemma WideCharBytes()
    ensures Encode("\U{4E2D}") == [0xE4, 0xB8, 0xAD]
  {
    assert "\U{4E2D}"[..0] == [];
  }
}
