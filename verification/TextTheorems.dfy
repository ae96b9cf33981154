/** What the converters do to whole strings. */
module TextTheorems {
  import opened Utf8
  import opened TextConversion

  function Same(ch: int): int { ch }

  // ---------------------------------------------------------------------------
  // The two converters
  // ---------------------------------------------------------------------------

  /** One character: the same value and the same step, or the same error. */
  lemma StepsAgree(s: seq<byte>)
    requires s != []
    ensures var (n, read) := Probe(AsUtf8, s, 1);
            && StepOf(s) == (if n < -1 then |s| else read)
            && CharAt(s) == (if n <= -1 then -1 else n)
  {
    var first := QueryConvert(s, 1);
    AcceptsExactlyUtf8(s, 1);
    if first < -1 && -first <= |s| { AcceptsExactlyUtf8(s, -first); }
  }

  /** On every byte string, well-formed or not, the conversion through an iterator and the one
      from a buffer give the same output and the same number of errors. */
  lemma {:induction false} ConvertersAgree(s: seq<byte>, defaultChar: int, trans: int -> int)
    ensures ConvertedByIterator(s, defaultChar, trans) == Converted(AsUtf8, s, defaultChar, trans)
    decreases |s|
  {
    if s == [] {
    } else {
      StepsAgree(s);
      ConvertersAgree(s[StepOf(s)..], defaultChar, trans);
    }
  }

  // ---------------------------------------------------------------------------
  // Well-formed strings
  // ---------------------------------------------------------------------------

  /** A string of UTF-8 characters. */
  predicate IsUtf8(s: seq<byte>)
    decreases |s|
  {
    s == [] || (SequenceLength(s) <= |s| && IsUtf8Char(s[..SequenceLength(s)]) && IsUtf8(s[SequenceLength(s)..]))
  }

  /** How a character in front is read. */
  lemma FirstChar(s: seq<byte>)
    requires s != []
    ensures var (n, read) := Probe(AsUtf8, s, 1); var k := SequenceLength(s);
            && (k <= |s| && IsUtf8Char(s[..k]) ==> read == k && n >= 0 && IsScalar(n) && Encode(n) == s[..k])
            && (!(k <= |s| && IsUtf8Char(s[..k])) ==> n <= -1)
            && (n >= -1 ==> read == k)
  {
    var first := QueryConvert(s, 1);
    AcceptsExactlyUtf8(s, 1);
    if first < -1 && -first <= |s| { AcceptsExactlyUtf8(s, -first); }
    var k := SequenceLength(s);
    if k <= |s| && IsUtf8Char(s[..k]) { DecodedEncodes(s, k); }
  }

  /** How many bytes the first one announces, by the ones it begins with. A byte that may not come
      first stands for itself. */
  function Announced(b: byte): nat {
    if b / 32 == 6 then 2 else if b / 16 == 14 then 3 else if b / 8 == 30 then 4 else 1
  }

  /** What is made of a character that is there, of one that is not well-formed, and of one that is
      cut off at the end: the character itself, or the default one and an error for all the bytes
      announced. */
  lemma ConvertsByChars(s: seq<byte>, defaultChar: int, trans: int -> int)
    requires s != []
    ensures var n := Announced(s[0]);
            Converted(AsUtf8, s, defaultChar, trans) ==
            if |s| < n then (Emit(trans(defaultChar), defaultChar), 1)
            else
              var rest := Converted(AsUtf8, s[n..], defaultChar, trans);
              if IsUtf8Char(s[..n]) then (Emit(trans(Value(s[..n])), defaultChar) + rest.0, rest.1)
              else (Emit(trans(defaultChar), defaultChar) + rest.0, rest.1 + 1)
  {
    hide Emit;
    var n := Announced(s[0]);
    AnnouncesLength(s);
    ReadsAnnounced(s);
    if n <= |s| && IsUtf8Char(s[..n]) { DecodesToValue(s, n); }
    assert |s| < n ==> Emit(trans(defaultChar), defaultChar) + [] == Emit(trans(defaultChar), defaultChar);
  }

  lemma AnnouncesLength(s: seq<byte>)
    requires s != []
    ensures SequenceLength(s) == Announced(s[0])
  {
  }

  lemma ReadsAnnounced(s: seq<byte>)
    requires s != []
    ensures var (n, read) := Probe(AsUtf8, s, 1); var k := SequenceLength(s);
            if |s| < k then n < -1 else read == k && n == QueryConvert(s, k) && n >= -1 && (n >= 0 <==> IsUtf8Char(s[..k]))
  {
    AcceptsExactlyUtf8(s, 1);
    var k := SequenceLength(s);
    if 1 < k <= |s| { AcceptsExactlyUtf8(s, k); }
  }

  /** A character too large to have an encoding is replaced by the default one. */
  lemma EmitsOrReplaces(c: int, defaultChar: int)
    ensures Emit(c, defaultChar) == Encode(if c <= 0x10FFFF then c else defaultChar)
  {
  }

  lemma CharInFront(c: seq<byte>, rest: seq<byte>)
    requires IsUtf8Char(c) && IsUtf8(rest)
    ensures IsUtf8(c + rest)
  {
    var s := c + rest;
    assert s[..|c|] == c && s[|c|..] == rest;
    DecodesToValue(s, |c|);
  }

  /** Well-formedness of a string, by its first character. */
  lemma FirstCharDecides(s: seq<byte>, n: int, read: nat)
    requires s != [] && (n, read) == Probe(AsUtf8, s, 1)
    ensures n <= -1 ==> !IsUtf8(s)
    ensures n > -1 ==> read <= |s| && IsScalar(n) && s == Encode(n) + s[read..] && (IsUtf8(s) <==> IsUtf8(s[read..]))
  {
    FirstChar(s);
    if n > -1 { assert s == s[..read] + s[read..]; }
  }

  lemma ConvertsFirst(s: seq<byte>, defaultChar: int, n: int, read: nat)
    requires s != [] && IsScalar(defaultChar) && (n, read) == Probe(AsUtf8, s, 1) && (n > -1 ==> IsScalar(n))
    ensures var rest := s[if n < -1 then |s| else read..];
            var after := Converted(AsUtf8, rest, defaultChar, Same);
            && |rest| < |s|
            && Converted(AsUtf8, s, defaultChar, Same) ==
               (Encode(if n <= -1 then defaultChar else n) + after.0, after.1 + if n <= -1 then 1 else 0)
  {
  }

  /** What the first character, or the first error, puts out, and what is left to convert. */
  lemma FirstOutput(s: seq<byte>, defaultChar: int) returns (c: int, failed: bool, rest: seq<byte>)
    requires s != [] && IsScalar(defaultChar)
    ensures IsScalar(c) && |rest| < |s|
    ensures var after := Converted(AsUtf8, rest, defaultChar, Same);
            Converted(AsUtf8, s, defaultChar, Same) == (Encode(c) + after.0, after.1 + if failed then 1 else 0)
    ensures failed ==> !IsUtf8(s)
    ensures !failed ==> s == Encode(c) + rest && (IsUtf8(s) <==> IsUtf8(rest))
  {
    var (n, read) := Probe(AsUtf8, s, 1);
    failed := n <= -1;
    c := if failed then defaultChar else n;
    rest := s[if n < -1 then |s| else read..];
    FirstCharDecides(s, n, read);
    ConvertsFirst(s, defaultChar, n, read);
  }

  /** The output is always well-formed, whatever the input, and the error count is zero exactly
      for well-formed input, which comes out as it is. */
  lemma {:induction false} OutputIsUtf8(s: seq<byte>, defaultChar: int)
    requires IsScalar(defaultChar)
    ensures var (output, errors) := Converted(AsUtf8, s, defaultChar, Same);
            IsUtf8(output) && (errors == 0 <==> IsUtf8(s)) && (IsUtf8(s) ==> output == s)
    decreases |s|
  {
    if s == [] {
    } else {
      var c, failed, rest := FirstOutput(s, defaultChar);
      OutputIsUtf8(rest, defaultChar);
      EncodedIsUtf8(c);
      CharInFront(Encode(c), Converted(AsUtf8, rest, defaultChar, Same).0);
    }
  }

  /** Converting the output again changes nothing and finds no error. */
  lemma ConvertingAgain(s: seq<byte>, defaultChar: int)
    requires IsScalar(defaultChar)
    ensures var output := Converted(AsUtf8, s, defaultChar, Same).0;
            Converted(AsUtf8, output, defaultChar, Same) == (output, 0)
  {
    OutputIsUtf8(s, defaultChar);
    OutputIsUtf8(Converted(AsUtf8, s, defaultChar, Same).0, defaultChar);
  }

  // ---------------------------------------------------------------------------
  // UTF-16
  // ---------------------------------------------------------------------------

  /** The units `UnicodeConverter` appends for a character. */
  function Units(cc: int): seq<nat> {
    if cc <= 0xFFFF then [cc % 0x10000]
    else [(cc - 0x10000) / 1024 % 1024 + 0xD800, (cc - 0x10000) % 1024 + 0xDC00]
  }

  /** `UnicodeConverter::convert` from UTF-8 to UTF-16. */
  function ToUtf16(s: seq<byte>): seq<nat>
    decreases |s|
  {
    if s == [] then [] else Units(CharAt(s)) + ToUtf16(s[StepOf(s)..])
  }

  lemma OneCharTo16(s: seq<byte>, before: seq<nat>, whole: seq<nat>)
    requires s != [] && before + ToUtf16(s) == whole
    ensures (before + Units(CharAt(s))) + ToUtf16(s[StepOf(s)..]) == whole
  {
  }

  method ConvertToUtf16(utf8String: seq<byte>) returns (utf16String: seq<nat>)
    ensures utf16String == ToUtf16(utf8String)
  {
    ghost var whole := ToUtf16(utf8String);
    utf16String := [];
    var it := new TextIterator(utf8String);
    assert utf8String[0..] == utf8String && [] + whole == whole;
    while it.it != |utf8String|
      invariant it.Valid() && it.text == utf8String
      invariant utf16String + ToUtf16(utf8String[it.it..]) == whole
      decreases |utf8String| - it.it
    {
      ghost var s := utf8String[it.it..];
      OneCharTo16(s, utf16String, whole);
      var cc := it.Deref();
      it.Next();
      assert s[StepOf(s)..] == utf8String[it.it..];
      utf16String := AppendUnits(utf16String, cc);
    }
    assert ToUtf16(utf8String[it.it..]) == [] && utf16String + [] == utf16String;
  }

  method AppendUnits(utf16String: seq<nat>, ch: int) returns (appended: seq<nat>)
    ensures appended == utf16String + Units(ch)
  {
    var cc := ch;
    appended := utf16String;
    if cc <= 0xFFFF {
      appended := appended + [cc % 0x10000];
    } else {
      cc := cc - 0x10000;
      appended := appended + [cc / 1024 % 1024 + 0xD800];
      appended := appended + [cc % 1024 + 0xDC00];
    }
  }

  /** The string in memory, in the machine's byte order. */
  function InMemory(units: seq<nat>, little: bool): seq<byte> {
    if units == [] then [] else UnitBytes(units[0], little) + InMemory(units[1..], little)
  }

  lemma {:induction false} InMemoryAppend(a: seq<nat>, b: seq<nat>, little: bool)
    ensures InMemory(a + b, little) == InMemory(a, little) + InMemory(b, little)
  {
    if a == [] {
      assert a + b == b;
    } else {
      assert (a + b)[0] == a[0] && (a + b)[1..] == a[1..] + b;
      InMemoryAppend(a[1..], b, little);
    }
  }

  lemma UnitComesBack(u: nat, little: bool)
    requires u < 0x10000
    ensures Unit(UnitBytes(u, little)[0], UnitBytes(u, little)[1], little) == u
  {
  }

  lemma PairComesBack(cc: int)
    requires 0x10000 <= cc <= 0x10FFFF
    ensures var u := Units(cc);
            && |u| == 2 && 0xD800 <= u[0] < 0xDC00 && 0xDC00 <= u[1] < 0xE000 && Pair(u[0], u[1]) == cc
  {
    var x := cc - 0x10000;
    assert x == 1024 * (x / 1024) + x % 1024 && x / 1024 < 1024;
  }

  /** Section 2.2 of RFC 2781: the character that two units begin with, or -1. */
  function FirstOfUnits(u: nat, v: nat): int {
    if u < 0xD800 || u > 0xDFFF then u
    else if u <= 0xDBFF && 0xDC00 <= v <= 0xDFFF then (u - 0xD800) * 0x400 + (v - 0xDC00) + 0x10000
    else -1
  }

  /** The decoder agrees with it exactly unless the first unit is a low surrogate, which it takes
      for a character, or the first is a high one and the second is above all surrogates. */
  lemma DecodesUnits(s: seq<byte>, little: bool)
    requires |s| >= 4
    ensures var u, v := Unit(s[0], s[1], little), Unit(s[2], s[3], little);
            QueryConvert16(s, 4, little) == FirstOfUnits(u, v) <==>
            !(0xDC00 <= u <= 0xDFFF) && !(0xD800 <= u <= 0xDBFF && v > 0xDFFF)
  {
    var u, v := Unit(s[0], s[1], little), Unit(s[2], s[3], little);
    if 0xD800 <= u <= 0xDBFF && 0xDC00 <= v <= 0xDFFF {
      assert u % 1024 == u - 0xD800 && v % 1024 == v - 0xDC00;
    }
  }

  /** And what it takes for a character there. */
  lemma DecodesTooMuch(s: seq<byte>, little: bool)
    requires |s| >= 4
    ensures var u, v := Unit(s[0], s[1], little), Unit(s[2], s[3], little);
            && (0xDC00 <= u <= 0xDFFF ==> QueryConvert16(s, 4, little) == u)
            && (0xD800 <= u <= 0xDBFF && v > 0xDFFF ==> QueryConvert16(s, 4, little) == (u - 0xD800) * 0x400 + v % 0x400 + 0x10000)
  {
    var u := Unit(s[0], s[1], little);
    if 0xD800 <= u <= 0xDBFF { assert u % 1024 == u - 0xD800; }
  }

  lemma ProbeUnit(s: seq<byte>, little: bool, u: nat)
    requires |s| >= 2 && Unit(s[0], s[1], little) == u && !(0xD800 <= u < 0xDC00)
    ensures Probe(AsUtf16(little), s, 1) == (u, 2)
  {
    assert Query(AsUtf16(little), s, 1) == -2 && Query(AsUtf16(little), s, 2) == u;
    assert Probe(AsUtf16(little), s, 2) == (u, 2);
  }

  lemma ProbePair(s: seq<byte>, little: bool, u: nat, v: nat)
    requires |s| >= 4 && Unit(s[0], s[1], little) == u && Unit(s[2], s[3], little) == v
    requires 0xD800 <= u < 0xDC00 && 0xDC00 <= v < 0xE000
    ensures Probe(AsUtf16(little), s, 1) == (Pair(u, v), 4)
  {
    assert Query(AsUtf16(little), s, 1) == -2 && Query(AsUtf16(little), s, 2) == -4;
    assert Query(AsUtf16(little), s, 4) == Pair(u, v);
    assert Probe(AsUtf16(little), s, 4) == (Pair(u, v), 4);
    assert Probe(AsUtf16(little), s, 2) == Probe(AsUtf16(little), s, 4);
  }

  /** A scalar value's units in front are read as that value, and as no more. */
  lemma ScalarIn16(cc: int, rest: seq<byte>, little: bool)
    requires IsScalar(cc)
    ensures var s := InMemory(Units(cc), little) + rest;
            s != [] && Probe(AsUtf16(little), s, 1) == (cc, 2 * |Units(cc)|) && s[2 * |Units(cc)|..] == rest
  {
    if cc <= 0xFFFF { UnitInFront(cc, rest, little); } else { PairInFront(cc, rest, little); }
  }

  lemma UnitInFront(cc: int, rest: seq<byte>, little: bool)
    requires IsScalar(cc) && cc <= 0xFFFF
    ensures var s := InMemory(Units(cc), little) + rest; Probe(AsUtf16(little), s, 1) == (cc, 2) && s[2..] == rest
  {
    hide Probe, UnitBytes;
    var s := UnitBytes(cc, little) + rest;
    assert InMemory(Units(cc)[1..], little) == [] && InMemory(Units(cc), little) + rest == s;
    UnitComesBack(cc, little);
    ProbeUnit(s, little, cc);
  }

  lemma PairInFront(cc: int, rest: seq<byte>, little: bool)
    requires 0x10000 <= cc <= 0x10FFFF
    ensures var s := InMemory(Units(cc), little) + rest; Probe(AsUtf16(little), s, 1) == (cc, 4) && s[4..] == rest
  {
    PairComesBack(cc);
    PairBytes(Units(cc)[0], Units(cc)[1], rest, little);
  }

  lemma PairBytes(u: nat, v: nat, rest: seq<byte>, little: bool)
    requires 0xD800 <= u < 0xDC00 && 0xDC00 <= v < 0xE000
    ensures var s := InMemory([u, v], little) + rest; Probe(AsUtf16(little), s, 1) == (Pair(u, v), 4) && s[4..] == rest
  {
    var s := UnitBytes(u, little) + UnitBytes(v, little) + rest;
    assert [u, v][1..] == [v] && [v][1..] == [];
    assert InMemory([v], little) == UnitBytes(v, little) + InMemory([], little) == UnitBytes(v, little);
    assert InMemory([u, v], little) == UnitBytes(u, little) + InMemory([v], little);
    assert InMemory([u, v], little) + rest == s;
    UnitComesBack(u, little);
    UnitComesBack(v, little);
    ProbePair(s, little, u, v);
  }

  lemma ScalarFrom16(cc: int, rest: seq<byte>, defaultChar: int, little: bool)
    requires IsScalar(cc)
    ensures var after := Converted(AsUtf16(little), rest, defaultChar, Same);
            Converted(AsUtf16(little), InMemory(Units(cc), little) + rest, defaultChar, Same) == (Encode(cc) + after.0, after.1)
  {
    ScalarIn16(cc, rest, little);
  }

  /** The string in UTF-16 begins with the units of its first character. */
  lemma MemoryOfFirst(s: seq<byte>, little: bool)
    requires s != []
    ensures InMemory(ToUtf16(s), little) == InMemory(Units(CharAt(s)), little) + InMemory(ToUtf16(s[StepOf(s)..]), little)
  {
    InMemoryAppend(Units(CharAt(s)), ToUtf16(s[StepOf(s)..]), little);
  }

  lemma Joined(s: seq<byte>, k: nat, first: seq<byte>, rest: (seq<byte>, nat), result: (seq<byte>, nat))
    requires k <= |s| && first == s[..k] && rest == (s[k..], 0) && result == (first + rest.0, rest.1)
    ensures result == (s, 0)
  {
    assert s == s[..k] + s[k..];
  }

  /** From UTF-8 to UTF-16 in native order and back is the identity on well-formed strings, in
      either byte order. */
  lemma {:induction false} ThroughUtf16(s: seq<byte>, defaultChar: int, little: bool)
    requires IsUtf8(s)
    ensures Converted(AsUtf16(little), InMemory(ToUtf16(s), little), defaultChar, Same) == (s, 0)
    decreases |s|
  {
    if s == [] {
      assert InMemory(ToUtf16(s), little) == [];
    } else {
      CharRead(s);
      var cc, k := CharAt(s), StepOf(s);
      var rest := InMemory(ToUtf16(s[k..]), little);
      MemoryOfFirst(s, little);
      ScalarFrom16(cc, rest, defaultChar, little);
      ThroughUtf16(s[k..], defaultChar, little);
      Joined(s, k, Encode(cc), Converted(AsUtf16(little), rest, defaultChar, Same),
             Converted(AsUtf16(little), InMemory(ToUtf16(s), little), defaultChar, Same));
    }
  }

  lemma CharRead(s: seq<byte>)
    requires s != [] && IsUtf8(s)
    ensures var k := SequenceLength(s);
            StepOf(s) == k <= |s| && IsScalar(CharAt(s)) && Encode(CharAt(s)) == s[..k]
  {
    FirstChar(s);
    StepsAgree(s);
  }
}
