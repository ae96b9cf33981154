/** `TextIterator`, `TextConverter` and `UnicodeConverter`: whole strings between UTF-8 and
    UTF-16, malformed input included. */
module TextConversion {
  import opened Utf8

  // ---------------------------------------------------------------------------
  // Encodings
  // ---------------------------------------------------------------------------

  /** `UTF16Encoding` in the machine's own byte order. */
  datatype Encoding = AsUtf8 | AsUtf16(little: bool)

  /** The 16-bit unit two bytes make. */
  function Unit(a: byte, b: byte, little: bool): nat {
    if little then a as int + 256 * (b as int) else 256 * (a as int) + b as int
  }

  function UnitBytes(u: nat, little: bool): (s: seq<byte>)
    ensures |s| == 2
  {
    if little then [u % 256, u / 256 % 256] else [u / 256 % 256, u % 256]
  }

  function Pair(high: nat, low: nat): nat { high % 1024 * 1024 + low % 1024 + 0x10000 }

  /** `UTF16Encoding::queryConvert`; its test of the second unit looks at the first one for the
      upper end, so any second unit from 0xDC00 up will do. */
  function QueryConvert16(s: seq<byte>, length: nat, little: bool): int
    requires length <= |s|
  {
    if length < 2 then -2
    else
      var uc := Unit(s[0], s[1], little);
      if !(0xD800 <= uc < 0xDC00) then uc
      else if length < 4 then -4
      else if Unit(s[2], s[3], little) >= 0xDC00 && uc < 0xE000 then Pair(uc, Unit(s[2], s[3], little))
      else -1
  }

  function Query(enc: Encoding, s: seq<byte>, length: nat): int
    requires 1 <= length <= |s|
  {
    if enc.AsUtf8? then QueryConvert(s, length) else QueryConvert16(s, length, enc.little)
  }

  /** An encoding that asks for more bytes asks for more than it has been shown. */
  lemma AsksForMore(enc: Encoding, s: seq<byte>, length: nat)
    requires 1 <= length <= |s|
    ensures Query(enc, s, length) < -1 ==> length < -Query(enc, s, length) <= 4
  {
    if enc.AsUtf8? { AcceptsExactlyUtf8(s, length); }
  }

  /** The answer at the front of s, shown as many bytes as asked for and available, and how
      many that were. */
  function Probe(enc: Encoding, s: seq<byte>, read: nat): (r: (int, nat))
    requires 1 <= read <= |s|
    ensures read <= r.1 <= |s| && r.0 == Query(enc, s, r.1)
    decreases |s| - read
  {
    var n := Query(enc, s, read);
    if n < -1 && read < -n <= |s| then Probe(enc, s, -n) else (n, read)
  }

  // ---------------------------------------------------------------------------
  // The converters, on values
  // ---------------------------------------------------------------------------

  /** What is appended for a character. */
  function Emit(c: int, defaultChar: int): seq<byte> {
    if Encode(c) != [] then Encode(c) else Encode(defaultChar)
  }

  /** The conversion from a buffer: output and error count. */
  function Converted(enc: Encoding, s: seq<byte>, defaultChar: int, trans: int -> int): (seq<byte>, nat)
    decreases |s|
  {
    if s == [] then ([], 0)
    else
      var (n, read) := Probe(enc, s, 1);
      var (output, errors) := Converted(enc, s[if n < -1 then |s| else read..], defaultChar, trans);
      (Emit(trans(if n <= -1 then defaultChar else n), defaultChar) + output, errors + if n <= -1 then 1 else 0)
  }

  /** `TextIterator::operator*` and how far `operator++` goes, in UTF-8. */
  function CharAt(s: seq<byte>): int
    requires s != []
  {
    var n := Probe(AsUtf8, s, 1).0;
    if n < -1 then -1 else n
  }

  function StepOf(s: seq<byte>): (n: nat)
    requires s != []
    ensures 1 <= n <= |s|
  {
    if SequenceLength(s) <= |s| then SequenceLength(s) else |s|
  }

  /** The conversion through an iterator. */
  function ConvertedByIterator(s: seq<byte>, defaultChar: int, trans: int -> int): (seq<byte>, nat)
    decreases |s|
  {
    if s == [] then ([], 0)
    else
      var c := CharAt(s);
      var (output, errors) := ConvertedByIterator(s[StepOf(s)..], defaultChar, trans);
      (Emit(trans(if c == -1 then defaultChar else c), defaultChar) + output, errors + if c == -1 then 1 else 0)
  }

  // ---------------------------------------------------------------------------
  // The loops
  // ---------------------------------------------------------------------------

  class TextIterator {
    const text: seq<byte>
    var it: nat

    predicate Valid()
      reads this
    {
      it <= |text|
    }

    constructor (text: seq<byte>)
      ensures Valid() && this.text == text && it == 0
    {
      this.text, it := text, 0;
    }

    /** `operator*`. */
    method Deref() returns (c: int)
      requires Valid() && it < |text|
      ensures c == CharAt(text[it..])
    {
      ghost var s := text[it..];
      var pos := it + 1;
      var buffer := [text[it]];
      assert buffer == s[..1];
      var read := 1;
      var n := QueryConvert(buffer, 1);
      SameFront(buffer, s, 1);
      while n < -1 && |text| - pos >= -n - read
        invariant 1 <= read <= |s| && pos == it + read && buffer == s[..read] && n == QueryConvert(s, read)
        invariant Probe(AsUtf8, s, 1) == Probe(AsUtf8, s, read)
        decreases 4 - read
      {
        AsksForMore(AsUtf8, s, read);
        while read < -n && pos != |text|
          invariant 1 <= read <= -n <= |s| && pos == it + read && buffer == s[..read]
          decreases |text| - pos
        {
          buffer := buffer + [text[pos]];
          pos := pos + 1;
          read := read + 1;
        }
        n := QueryConvert(buffer, read);
        SameFront(buffer, s, read);
      }
      AsksForMore(AsUtf8, s, read);
      c := if n < -1 then -1 else n;
    }

    /** `operator++`. */
    method Next()
      requires Valid() && it < |text|
      modifies this
      ensures Valid() && it == old(it) + StepOf(text[old(it)..])
    {
      ghost var s, start := text[it..], it;
      var n := SequenceLength([text[it]]);
      assert n == SequenceLength(s);
      it := it + 1;
      var read := 1;
      while read < n && it != |text|
        invariant 1 <= read <= n && it == start + read && it <= |text|
      {
        it := it + 1;
        read := read + 1;
      }
    }
  }

  /** The answer depends on the bytes shown only. */
  lemma SameFront(buffer: seq<byte>, s: seq<byte>, read: nat)
    requires 1 <= read <= |s| && buffer == s[..read]
    ensures QueryConvert(buffer, read) == QueryConvert(s, read)
  {
    var n := CharMap(s[0]);
    if n < -1 && -n <= read { assert buffer[1..-n] == s[1..-n]; }
  }

  /** What has been put out, with what the rest gives, is the whole. */
  predicate Continues(destination: seq<byte>, errors: nat, rest: (seq<byte>, nat), whole: (seq<byte>, nat)) {
    destination + rest.0 == whole.0 && errors + rest.1 == whole.1
  }

  lemma Appended(destination: seq<byte>, errors: nat, emitted: seq<byte>, failed: nat, rest: (seq<byte>, nat), whole: (seq<byte>, nat))
    requires Continues(destination, errors, (emitted + rest.0, rest.1 + failed), whole)
    ensures Continues(destination + emitted, errors + failed, rest, whole)
  {
    assert destination + (emitted + rest.0) == (destination + emitted) + rest.0;
  }

  lemma Begun(whole: (seq<byte>, nat))
    ensures Continues([], 0, whole, whole)
  {
  }

  lemma Finished(destination: seq<byte>, errors: nat, s: seq<byte>, whole: (seq<byte>, nat))
    requires s == [] && Continues(destination, errors, ([], 0), whole)
    ensures (destination, errors) == whole
  {
    assert destination + [] == destination;
  }

  lemma OneChar(s: seq<byte>, defaultChar: int, trans: int -> int)
    requires s != []
    ensures var c, rest := CharAt(s), ConvertedByIterator(s[StepOf(s)..], defaultChar, trans);
            ConvertedByIterator(s, defaultChar, trans) ==
            (Emit(trans(if c == -1 then defaultChar else c), defaultChar) + rest.0, rest.1 + if c == -1 then 1 else 0)
  {
  }

  /** One round of the iterator's loop. */
  lemma CharByIterator(source: seq<byte>, it: nat, c: int, step: nat, defaultChar: int, trans: int -> int,
                       destination: seq<byte>, errors: nat, whole: (seq<byte>, nat))
    requires it < |source| && Continues(destination, errors, ConvertedByIterator(source[it..], defaultChar, trans), whole)
    requires c == CharAt(source[it..]) && step == StepOf(source[it..])
    ensures it < it + step <= |source|
    ensures Continues(destination + Emit(trans(if c == -1 then defaultChar else c), defaultChar), errors + if c == -1 then 1 else 0,
                      ConvertedByIterator(source[it + step..], defaultChar, trans), whole)
  {
    hide Emit, ConvertedByIterator, CharAt;
    var s := source[it..];
    var rest := ConvertedByIterator(s[StepOf(s)..], defaultChar, trans);
    OneChar(s, defaultChar, trans);
    Appended(destination, errors, Emit(trans(if c == -1 then defaultChar else c), defaultChar), if c == -1 then 1 else 0, rest, whole);
    assert s[StepOf(s)..] == source[it + StepOf(s)..];
  }

  lemma IteratorDone(source: seq<byte>, it: nat, defaultChar: int, trans: int -> int,
                     destination: seq<byte>, errors: nat, whole: (seq<byte>, nat))
    requires it == |source| && Continues(destination, errors, ConvertedByIterator(source[it..], defaultChar, trans), whole)
    ensures (destination, errors) == whole
  {
    Finished(destination, errors, source[it..], whole);
  }

  method ConvertByIterator(source: seq<byte>, defaultChar: int, trans: int -> int)
    returns (destination: seq<byte>, errors: nat)
    ensures (destination, errors) == ConvertedByIterator(source, defaultChar, trans)
  {
    hide Emit, Continues, ConvertedByIterator, CharAt, StepOf;
    ghost var whole := ConvertedByIterator(source, defaultChar, trans);
    destination, errors := [], 0;
    var it := new TextIterator(source);
    assert source[0..] == source;
    Begun(whole);
    while it.it != |source|
      invariant it.Valid() && it.text == source
      invariant Continues(destination, errors, ConvertedByIterator(source[it.it..], defaultChar, trans), whole)
      decreases |source| - it.it
    {
      ghost var step := StepOf(source[it.it..]);
      ghost var next := it.it + step;
      var c := it.Deref();
      CharByIterator(source, it.it, c, step, defaultChar, trans, destination, errors, whole);
      if c == -1 {
        errors := errors + 1;
        c := defaultChar;
      }
      c := trans(c);
      destination := destination + Emit(c, defaultChar);
      it.Next();
      assert it.it == next;
    }
    IteratorDone(source, it.it, defaultChar, trans, destination, errors, whole);
  }

  /** The probing loop of the conversion from a buffer. */
  method ProbeLoop(enc: Encoding, s: seq<byte>) returns (n: int, read: nat)
    requires s != []
    ensures (n, read) == Probe(enc, s, 1)
  {
    n, read := Query(enc, s, 1), 1;
    while n < -1 && |s| >= -n
      invariant 1 <= read <= |s| && n == Query(enc, s, read) && Probe(enc, s, 1) == Probe(enc, s, read)
      decreases 4 - read
    {
      AsksForMore(enc, s, read);
      read := -n;
      n := Query(enc, s, read);
      AsksForMore(enc, s, read);
    }
    AsksForMore(enc, s, read);
  }

  /** One round of the buffer's loop. */
  lemma CharFromBuffer(enc: Encoding, source: seq<byte>, it: nat, n: int, read: nat, defaultChar: int, trans: int -> int,
                       destination: seq<byte>, errors: nat, whole: (seq<byte>, nat))
    requires it < |source| && Continues(destination, errors, Converted(enc, source[it..], defaultChar, trans), whole)
    requires (n, read) == Probe(enc, source[it..], 1)
    ensures var next := if n < -1 then |source| else it + read;
            && it < next <= |source|
            && Continues(destination + Emit(trans(if n <= -1 then defaultChar else n), defaultChar), errors + if n <= -1 then 1 else 0,
                         Converted(enc, source[next..], defaultChar, trans), whole)
  {
    hide Emit;
    var s := source[it..];
    var step := if n < -1 then |s| else read;
    var rest := Converted(enc, s[step..], defaultChar, trans);
    Appended(destination, errors, Emit(trans(if n <= -1 then defaultChar else n), defaultChar), if n <= -1 then 1 else 0, rest, whole);
    assert s[step..] == source[it + step..];
  }

  method ConvertBuffer(enc: Encoding, source: seq<byte>, defaultChar: int, trans: int -> int)
    returns (destination: seq<byte>, errors: nat)
    ensures (destination, errors) == Converted(enc, source, defaultChar, trans)
  {
    ghost var whole := Converted(enc, source, defaultChar, trans);
    destination, errors := [], 0;
    var it := 0;
    assert source[0..] == source;
    assert Continues(destination, errors, whole, whole);
    while it < |source|
      invariant it <= |source|
      invariant Continues(destination, errors, Converted(enc, source[it..], defaultChar, trans), whole)
    {
      var n, read := ProbeLoop(enc, source[it..]);
      CharFromBuffer(enc, source, it, n, read, defaultChar, trans, destination, errors, whole);
      it := if n < -1 then |source| else it + read;
      var uc := if n <= -1 then defaultChar else n;
      if n <= -1 {
        errors := errors + 1;
      }
      destination := destination + Emit(trans(uc), defaultChar);
    }
    Finished(destination, errors, source[it..], whole);
  }
}
