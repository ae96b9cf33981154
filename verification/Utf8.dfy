/** `UTF8Encoding`: decoding and encoding of one character. Masks and shifts by constants are
    written as remainders and products by the powers of two. */
module Utf8 {
  type byte = x: int | 0 <= x < 256

  /** `_charMap`: a byte's own value, minus the length of the sequence it leads, or -1. */
  function CharMap(b: byte): (n: int)
    ensures -4 <= n < 0x80
  {
    if b < 0x80 then b
    else if b < 0xC0 then -1
    else if b < 0xE0 then -2
    else if b < 0xF0 then -3
    else if b < 0xF8 then -4
    else -1
  }

  predicate Between(b: byte, lo: int, hi: int) { lo <= b <= hi }

  /** `isLegal`, its cases falling through from the last byte down to the first. */
  predicate IsLegal(s: seq<byte>, length: nat)
    requires length <= |s|
  {
    && 1 <= length <= 4
    && (length >= 4 ==> Between(s[length - 1], 0x80, 0xBF))
    && (length >= 3 ==> Between(s[2], 0x80, 0xBF))
    && (length >= 2 ==>
          if s[0] == 0xE0 then Between(s[1], 0xA0, 0xBF)
          else if s[0] == 0xED then Between(s[1], 0x80, 0x9F)
          else if s[0] == 0xF0 then Between(s[1], 0x90, 0xBF)
          else if s[0] == 0xF4 then Between(s[1], 0x80, 0x8F)
          else Between(s[1], 0x80, 0xBF))
    && !(0x80 <= s[0] < 0xC2) && s[0] <= 0xF4
  }

  /** What the lead byte of a sequence of `length` contributes: `(0x07 << (n + 4)) | 0x03`
      masks five, four or three bits. */
  function LeadBits(b: byte, length: nat): nat {
    if length == 2 then b % 32 else if length == 3 then b % 16 else b % 8
  }

  /** Six bits from a further byte. */
  function Accumulated(uc: nat, b: byte): nat { 64 * uc + b as int % 64 }

  function Accumulate(uc: nat, tail: seq<byte>): nat
    decreases |tail|
  {
    if tail == [] then uc else Accumulate(Accumulated(uc, tail[0]), tail[1..])
  }

  /** `queryConvert` with `length` bytes at hand: the character, or -1 for an illegal sequence,
      or minus the number of bytes needed. */
  function QueryConvert(s: seq<byte>, length: nat): int
    requires 1 <= length <= |s|
  {
    var n := CharMap(s[0]);
    if -n > length then n
    else if n >= -1 then n
    else if !IsLegal(s, -n) then -1
    else Accumulate(LeadBits(s[0], -n), s[1..-n])
  }

  /** `sequenceLength` of at least one byte. */
  function SequenceLength(s: seq<byte>): (n: nat)
    requires |s| > 0
    ensures 1 <= n <= 4
  {
    var cc := CharMap(s[0]);
    if cc >= 0 then 1 else -cc
  }

  /** `convert` to bytes; a character too large gives none, a negative one is cut to a byte. */
  function Encode(ch: int): (s: seq<byte>)
    ensures |s| <= 4 && (|s| == 0 <==> ch > 0x10FFFF)
  {
    if ch <= 0x7F then [ch % 256]
    else if ch <= 0x7FF then [ch / 64 % 32 + 0xC0, ch % 64 + 0x80]
    else if ch <= 0xFFFF then [ch / 4096 % 16 + 0xE0, ch / 64 % 64 + 0x80, ch % 64 + 0x80]
    else if ch <= 0x10FFFF then [ch / 262144 % 8 + 0xF0, ch / 4096 % 64 + 0x80, ch / 64 % 64 + 0x80, ch % 64 + 0x80]
    else []
  }

  /** The loop of both decoding routines. */
  method Decode(s: seq<byte>) returns (ch: int)
    requires |s| > 0 && |s| >= SequenceLength(s)
    ensures ch == QueryConvert(s, SequenceLength(s))
  {
    var n := CharMap(s[0]);
    if n >= -1 {
      return n;
    }
    if !IsLegal(s, -n) {
      return -1;
    }
    var uc, i := LeadBits(s[0], -n), 1;
    ghost var length := -n;
    while n < -1
      invariant -length <= n <= -1 && i == length + n + 1
      invariant Accumulate(uc, s[i..length]) == Accumulate(LeadBits(s[0], length), s[1..length])
    {
      assert s[i..length][1..] == s[i + 1..length];
      uc := Accumulated(uc, s[i]);
      i := i + 1;
      n := n + 1;
    }
    assert s[i..length] == [];
    ch := uc;
  }

  // ---------------------------------------------------------------------------
  // Section 4 of RFC 3629
  // ---------------------------------------------------------------------------

  predicate IsTail(b: byte) { 0x80 <= b <= 0xBF }

  predicate IsUtf8Char(s: seq<byte>) {
    || (|s| == 1 && s[0] <= 0x7F)
    || (|s| == 2 && 0xC2 <= s[0] <= 0xDF && IsTail(s[1]))
    || (|s| == 3 && s[0] == 0xE0 && 0xA0 <= s[1] <= 0xBF && IsTail(s[2]))
    || (|s| == 3 && 0xE1 <= s[0] <= 0xEC && IsTail(s[1]) && IsTail(s[2]))
    || (|s| == 3 && s[0] == 0xED && 0x80 <= s[1] <= 0x9F && IsTail(s[2]))
    || (|s| == 3 && 0xEE <= s[0] <= 0xEF && IsTail(s[1]) && IsTail(s[2]))
    || (|s| == 4 && s[0] == 0xF0 && 0x90 <= s[1] <= 0xBF && IsTail(s[2]) && IsTail(s[3]))
    || (|s| == 4 && 0xF1 <= s[0] <= 0xF3 && IsTail(s[1]) && IsTail(s[2]) && IsTail(s[3]))
    || (|s| == 4 && s[0] == 0xF4 && 0x80 <= s[1] <= 0x8F && IsTail(s[2]) && IsTail(s[3]))
  }

  predicate IsScalar(ch: int) { 0 <= ch <= 0x10FFFF && !(0xD800 <= ch <= 0xDFFF) }

  /** The decoder accepts exactly the sequences of the RFC, and needs exactly their length. */
  lemma AcceptsExactlyUtf8(s: seq<byte>, length: nat)
    requires 1 <= length <= |s|
    ensures QueryConvert(s, length) >= 0 <==> SequenceLength(s) <= length && IsUtf8Char(s[..SequenceLength(s)])
    ensures QueryConvert(s, length) < -1 <==> SequenceLength(s) > length
    ensures QueryConvert(s, length) < -1 ==> QueryConvert(s, length) + SequenceLength(s) == 0
  {
  }

  /** What a byte holds above the base of its kind. */
  function Over(b: byte, base: int): int { b as int - base }

  /** The value of a sequence, spelled out. */
  function Value(s: seq<byte>): int {
    if |s| == 1 then s[0] as int
    else if |s| == 2 then 64 * Over(s[0], 0xC0) + Over(s[1], 0x80)
    else if |s| == 3 then 4096 * Over(s[0], 0xE0) + 64 * Over(s[1], 0x80) + Over(s[2], 0x80)
    else if |s| == 4 then 262144 * Over(s[0], 0xF0) + 4096 * Over(s[1], 0x80) + 64 * Over(s[2], 0x80) + Over(s[3], 0x80)
    else 0
  }

  lemma AccumulateAll(uc: nat, tail: seq<byte>)
    requires |tail| <= 3
    ensures |tail| == 1 ==> Accumulate(uc, tail) == 64 * uc + tail[0] as int % 64
    ensures |tail| == 2 ==> Accumulate(uc, tail) == 4096 * uc + 64 * (tail[0] as int % 64) + tail[1] as int % 64
    ensures |tail| == 3 ==>
              Accumulate(uc, tail) == 262144 * uc + 4096 * (tail[0] as int % 64) + 64 * (tail[1] as int % 64) + tail[2] as int % 64
    decreases |tail|
  {
    if |tail| == 0 {
    } else {
      AccumulateAll(Accumulated(uc, tail[0]), tail[1..]);
    }
  }

  lemma LegalChar(s: seq<byte>, n: nat)
    requires n <= |s| && IsUtf8Char(s[..n])
    ensures SequenceLength(s) == n
    ensures n == 1 ==> QueryConvert(s, n) == s[0]
    ensures n >= 2 ==> QueryConvert(s, n) == Accumulate(LeadBits(s[0], n), s[1..n])
  {
  }

  lemma DecodesToValue(s: seq<byte>, n: nat)
    requires n <= |s| && IsUtf8Char(s[..n])
    ensures SequenceLength(s) == n && QueryConvert(s, n) == Value(s[..n])
  {
    LegalChar(s, n);
    if n >= 2 {
      AccumulateAll(LeadBits(s[0], n), s[1..n]);
      PartsOfValue(s[..n], s[1..n]);
    }
  }

  /** The masked bits are those above the bases. */
  lemma PartsOfValue(s: seq<byte>, tail: seq<byte>)
    requires IsUtf8Char(s) && |s| >= 2 && tail == s[1..]
    ensures |s| == 2 ==> Value(s) == 64 * LeadBits(s[0], 2) + tail[0] as int % 64
    ensures |s| == 3 ==> Value(s) == 4096 * LeadBits(s[0], 3) + 64 * (tail[0] as int % 64) + tail[1] as int % 64
    ensures |s| == 4 ==>
              Value(s) == 262144 * LeadBits(s[0], 4) + 4096 * (tail[0] as int % 64) + 64 * (tail[1] as int % 64) + tail[2] as int % 64
  {
  }

  lemma Digits(ch: int)
    requires 0 <= ch
    ensures ch == 64 * (ch / 64) + ch % 64 && ch / 64 == 64 * (ch / 4096) + ch / 64 % 64
    ensures ch / 4096 == 64 * (ch / 262144) + ch / 4096 % 64
  {
  }

  lemma EncodedInTwo(ch: int)
    requires 0x80 <= ch <= 0x7FF
    ensures IsUtf8Char(Encode(ch)) && Value(Encode(ch)) == ch
  {
    Digits(ch);
  }

  lemma EncodedInThree(ch: int)
    requires 0x800 <= ch <= 0xFFFF && IsScalar(ch)
    ensures IsUtf8Char(Encode(ch)) && Value(Encode(ch)) == ch
  {
    Digits(ch);
  }

  lemma EncodedInFour(ch: int)
    requires 0x10000 <= ch <= 0x10FFFF
    ensures IsUtf8Char(Encode(ch)) && Value(Encode(ch)) == ch
  {
    Digits(ch);
  }

  lemma EncodedIsUtf8(ch: int)
    requires IsScalar(ch)
    ensures IsUtf8Char(Encode(ch)) && Value(Encode(ch)) == ch
  {
    if ch <= 0x7F {
    } else if ch <= 0x7FF {
      EncodedInTwo(ch);
    } else if ch <= 0xFFFF {
      EncodedInThree(ch);
    } else {
      EncodedInFour(ch);
    }
  }

  /** An encoded scalar value is a sequence of the RFC, and decodes to the value. */
  lemma EncodedDecodes(ch: int, rest: seq<byte>)
    requires IsScalar(ch)
    ensures var s := Encode(ch);
            IsUtf8Char(s) && SequenceLength(s + rest) == |s| && QueryConvert(s + rest, |s|) == ch
  {
    var s := Encode(ch);
    EncodedIsUtf8(ch);
    assert (s + rest)[..|s|] == s;
    DecodesToValue(s + rest, |s|);
  }

  lemma FromDigits(d3: int, d2: int, d1: int, d0: int)
    requires 0 <= d3 && 0 <= d2 < 64 && 0 <= d1 < 64 && 0 <= d0 < 64
    ensures var ch := 262144 * d3 + 4096 * d2 + 64 * d1 + d0;
            ch % 64 == d0 && ch / 64 % 64 == d1 && ch / 4096 % 64 == d2 && ch / 262144 == d3
  {
    var ch := 262144 * d3 + 4096 * d2 + 64 * d1 + d0;
    assert ch / 64 == 4096 * d3 + 64 * d2 + d1;
    assert ch / 4096 == 64 * d3 + d2;
  }

  lemma TwoEncode(s: seq<byte>)
    requires |s| == 2 && IsUtf8Char(s)
    ensures IsScalar(Value(s)) && Encode(Value(s)) == s
  {
    FromDigits(0, 0, Over(s[0], 0xC0), Over(s[1], 0x80));
  }

  lemma ThreeEncode(s: seq<byte>)
    requires |s| == 3 && IsUtf8Char(s)
    ensures IsScalar(Value(s)) && Encode(Value(s)) == s
  {
    FromDigits(0, Over(s[0], 0xE0), Over(s[1], 0x80), Over(s[2], 0x80));
  }

  lemma FourEncode(s: seq<byte>)
    requires |s| == 4 && IsUtf8Char(s)
    ensures IsScalar(Value(s)) && Encode(Value(s)) == s
  {
    FromDigits(Over(s[0], 0xF0), Over(s[1], 0x80), Over(s[2], 0x80), Over(s[3], 0x80));
  }

  lemma ValueEncodes(s: seq<byte>)
    requires IsUtf8Char(s)
    ensures IsScalar(Value(s)) && Encode(Value(s)) == s
  {
    if |s| == 2 {
      TwoEncode(s);
    } else if |s| == 3 {
      ThreeEncode(s);
    } else if |s| == 4 {
      FourEncode(s);
    }
  }

  /** Accepted bytes are those of a scalar value, which encodes to them again. */
  lemma DecodedEncodes(s: seq<byte>, n: nat)
    requires n <= |s| && IsUtf8Char(s[..n])
    ensures IsScalar(QueryConvert(s, n)) && Encode(QueryConvert(s, n)) == s[..n]
  {
    DecodesToValue(s, n);
    ValueEncodes(s[..n]);
  }
}
