/** `NumericString`: printing integers into a character buffer and parsing them back, for
    integer types of any width, signed or not. */
module NumericString {
  import opened Arithmetic

  const NO_SEPARATOR: char := '\0'

  // ---------------------------------------------------------------------------
  // Printing
  // ---------------------------------------------------------------------------

  function Digit(d: nat): char
    requires d < 16
  {
    "0123456789ABCDEF"[d]
  }

  function Abs(x: int): nat { if x < 0 then -x else x }

  function Low(v: nat, base: nat): (d: nat)
    requires 2 <= base
    ensures d < base
  {
    v % base
  }

  function High(v: nat, base: nat): (h: nat)
    requires 2 <= base
    ensures v >= base ==> 0 < h < v
    ensures v < base ==> h == 0
  {
    assert v == (v / base) * base + v % base;
    v / base
  }

  predicate Separates(base: nat, thSep: char) { thSep != NO_SEPARATOR && base == 10 }

  /** The separator after a digit that has `count` digits of its group before it. */
  function Separator(base: nat, thSep: char, count: nat): string {
    if Separates(base, thSep) && count == 2 then [thSep] else ""
  }

  function NextCount(base: nat, thSep: char, count: nat): nat {
    if !Separates(base, thSep) then count else if count == 2 then 0 else count + 1
  }

  /** The digits of v from the lowest, with separators. */
  function Reversed(v: nat, base: nat, thSep: char, count: nat): (s: string)
    requires 2 <= base <= 16
    ensures |s| > 0
    decreases v
  {
    [Digit(Low(v, base))] + Separator(base, thSep, count)
    + if v < base then "" else Reversed(High(v, base), base, thSep, NextCount(base, thSep, count))
  }

  function Repeat(c: char, n: int): (s: string)
    ensures |s| == if n > 0 then n else 0
  {
    if n <= 0 then "" else Repeat(c, n - 1) + [c]
  }

  /** Everything `intToStr` writes, before it turns it round. */
  function WithZeros(value: int, base: nat, prefix: bool, width: int, fill: char, thSep: char): string
    requires 2 <= base <= 16
  {
    var digits := Reversed(Abs(value), base, thSep, 0);
    var room := width - (if value < 0 then 1 else 0) - (if prefix && base == 8 then 1 else if prefix && base == 16 then 2 else 0);
    digits + if fill == '0' then Repeat('0', room - |digits|) else ""
  }

  function WithSign(value: int, base: nat, prefix: bool, width: int, fill: char, thSep: char): string
    requires 2 <= base <= 16
  {
    WithZeros(value, base, prefix, width, fill, thSep)
    + (if prefix && base == 8 then "0" else if prefix && base == 16 then "x0" else "")
    + if value < 0 then "-" else ""
  }

  function Written(value: int, base: nat, prefix: bool, width: int, fill: char, thSep: char): (s: string)
    requires 2 <= base <= 16
    ensures |s| > 0
  {
    var s := WithSign(value, base, prefix, width, fill, thSep);
    s + if fill != '0' then Repeat(fill, width - |s|) else ""
  }

  function Reverse(s: string): (r: string)
    ensures |r| == |s|
  {
    if s == "" then "" else Reverse(s[1..]) + [s[0]]
  }

  function Printed(value: int, base: nat, prefix: bool, width: int, fill: char, thSep: char): string
    requires 2 <= base <= 16
  {
    Reverse(Written(value, base, prefix, width, fill, thSep))
  }

  // ---------------------------------------------------------------------------
  // The printing loops
  // ---------------------------------------------------------------------------

  /** What the buffer holds before position n. */
  predicate Holds(result: array<char>, n: nat, s: string)
    reads result
  {
    n <= result.Length && result[..n] == s
  }

  /** `*ptr++ = c` through the bounds-checking pointer: it throws at the end of the buffer. */
  method Put(result: array<char>, size: nat, n: nat, c: char, ghost s: string) returns (n': nat, thrown: bool)
    requires n <= size <= result.Length && Holds(result, n, s)
    modifies result
    ensures thrown <==> n == size
    ensures !thrown ==> n' == n + 1 && Holds(result, n', s + [c])
  {
    n' := n;
    thrown := n == size;
    if !thrown {
      result[n] := c;
      n' := n + 1;
      assert result[..n'] == result[..n] + [c];
    }
  }

  /** The remainder has the value's sign, and the quotient the rest of its digits. */
  lemma TruncatedParts(value: int, base: nat)
    requires 2 <= base <= 16
    ensures var q := Quotient(value, base); var r := value - q * base;
            && Abs(r) == Low(Abs(value), base) && Abs(q) == High(Abs(value), base)
            && (value < 0 ==> r <= 0 && q <= 0) && (value >= 0 ==> r >= 0 && q >= 0)
  {
    if value < 0 {
      var p := -value;
      assert p == (p / base) * base + p % base;
      assert -(p / base) * base == -((p / base) * base);
    } else {
      assert value == (value / base) * base + value % base;
    }
  }

  /** The mirrored table turns a remainder of either sign into its digit. */
  function TableDigit(r: int): (c: char)
    requires -16 < r < 16
    ensures c == Digit(Abs(r))
  {
    "FEDCBA9876543210123456789ABCDEF"[15 + r]
  }

  /** One digit, and the separator when its group is complete. */
  method PutDigit(r: int, base: nat, result: array<char>, size: nat, thSep: char, count: nat, start: nat, ghost s: string)
    returns (n: nat, thCount: nat, thrown: bool)
    requires -16 < r < 16 && start <= size <= result.Length && Holds(result, start, s) && count <= 2
    modifies result
    ensures var put := s + [Digit(Abs(r))] + Separator(base, thSep, count);
            && (thrown <==> |put| > size) && (!thrown ==> n <= size && Holds(result, n, put))
    ensures thCount <= 2 && (!thrown ==> thCount == NextCount(base, thSep, count))
  {
    thCount := count;
    n, thrown := Put(result, size, start, TableDigit(r), s);
    if !thrown && thSep != NO_SEPARATOR && base == 10 {
      thCount := thCount + 1;
      if thCount == 3 {
        n, thrown := Put(result, size, n, thSep, s + [Digit(Abs(r))]);
        thCount := 0;
      }
    }
  }

  method PutDigits(value: int, base: nat, result: array<char>, size: nat, thSep: char)
    returns (n: nat, negative: bool, thrown: bool)
    requires 2 <= base <= 16 && size <= result.Length
    modifies result
    ensures thrown <==> |Reversed(Abs(value), base, thSep, 0)| > size
    ensures !thrown ==> n <= size && Holds(result, n, Reversed(Abs(value), base, thSep, 0)) && (negative <==> value < 0)
  {
    ghost var whole := Reversed(Abs(value), base, thSep, 0);
    ghost var done := "";
    n, negative, thrown := 0, false, false;
    var v, thCount, again := value, 0, true;
    while again
      invariant n <= size && Holds(result, n, done) && thCount <= 2
      invariant again ==> whole == done + Reversed(Abs(v), base, thSep, thCount) && (value < 0 <==> v < 0)
      invariant !again ==> done == whole && (negative <==> value < 0)
      decreases Abs(v), again
    {
      var tmpVal := v;
      v := Quotient(v, base);
      TruncatedParts(tmpVal, base);
      var r := tmpVal - v * base;
      ghost var put := done + [Digit(Abs(r))] + Separator(base, thSep, thCount);
      Unfolded(Abs(tmpVal), base, thSep, thCount, done, put, whole);
      n, thCount, thrown := PutDigit(r, base, result, size, thSep, thCount, n, done);
      if thrown { return; }
      done := put;
      negative := tmpVal < 0;
      again := v != 0;
    }
  }

  lemma Regroup(a: string, b: string, c: string, d: string)
    ensures a + (b + c + d) == (a + b + c) + d
  {
  }

  lemma Unfolded(v: nat, base: nat, thSep: char, count: nat, done: string, put: string, whole: string)
    requires 2 <= base <= 16 && whole == done + Reversed(v, base, thSep, count)
    requires put == done + [Digit(Low(v, base))] + Separator(base, thSep, count)
    ensures |put| <= |whole|
    ensures whole == if v < base then put else put + Reversed(High(v, base), base, thSep, NextCount(base, thSep, count))
  {
    var rest := if v < base then "" else Reversed(High(v, base), base, thSep, NextCount(base, thSep, count));
    Regroup(done, [Digit(Low(v, base))], Separator(base, thSep, count), rest);
    assert put + "" == put;
  }

  /** `while ((ptr - result) < width) *ptr++ = fill`. */
  method Pad(result: array<char>, size: nat, start: nat, width: int, fill: char, ghost s: string)
    returns (n: nat, thrown: bool)
    requires start == |s| && start <= size <= result.Length && Holds(result, start, s)
    modifies result
    ensures var padded := s + Repeat(fill, width - |s|);
            && (thrown <==> |padded| > size) && (!thrown ==> n == |padded| && Holds(result, n, padded))
  {
    n, thrown := start, false;
    assert s + "" == s;
    while n < width
      invariant |s| <= n <= size && (n <= width || n == |s|)
      invariant Holds(result, n, s + Repeat(fill, n - |s|))
      decreases width - n
    {
      ghost var before := s + Repeat(fill, n - |s|);
      assert before + [fill] == s + Repeat(fill, n + 1 - |s|);
      n, thrown := Put(result, size, n, fill, before);
      if thrown { return; }
    }
  }

  lemma {:induction false} ReverseAt(s: string, k: nat)
    requires k < |s|
    ensures Reverse(s)[k] == s[|s| - 1 - k]
  {
    if k == |s| - 1 {
    } else {
      ReverseAt(s[1..], k);
    }
  }

  datatype Outcome = BadBase | RangeException | Done(size: nat)

  /** `intToStr`; for values that are not negative also `uIntToStr`, which is the same code
      without the sign. One place behind `size` is kept for the terminator. */
  method IntToStr(value: int, base: nat, result: array<char>, size: nat, prefix: bool, width: int, fill: char, thSep: char)
    returns (outcome: Outcome)
    requires size < result.Length
    modifies result
    ensures outcome.BadBase? <==> !(2 <= base <= 16)
    ensures 2 <= base <= 16 ==>
              var printed := Formatted(value, base, prefix, width, fill, thSep);
              if |printed| > size then outcome.RangeException?
              else outcome == Done(|printed|) && result[..|printed|] == printed && result[|printed|] == '\0'
  {
    if base < 2 || base > 16 {
      result[0] := '\0';
      return BadBase;
    }
    PrintedShape(value, base, prefix, width, fill, thSep);
    var n, thrown := Write(value, base, result, size, prefix, width, fill, thSep);
    if thrown {
      return RangeException;
    }
    ghost var written := Written(value, base, prefix, width, fill, thSep);
    result[n] := '\0';
    assert result[..n] == written;
    TurnRound(result, n);
    outcome := Done(n);
  }

  /** The last loop, which turns the number round in place before its terminator. */
  method TurnRound(result: array<char>, n: nat)
    requires n < result.Length && result[n] == '\0'
    modifies result
    ensures result[..n] == Reverse(old(result[..n])) && result[n] == '\0'
  {
    ghost var s := result[..n];
    var i, j := 0, n - 1;
    while i < j
      invariant 0 <= i && i + j == n - 1 && i <= j + 1 && result[n] == '\0'
      invariant forall k :: 0 <= k < i ==> result[k] == s[n - 1 - k]
      invariant forall k :: i <= k <= j ==> result[k] == s[k]
      invariant forall k :: j < k < n ==> result[k] == s[n - 1 - k]
    {
      result[i], result[j] := result[j], result[i];
      i, j := i + 1, j - 1;
    }
    forall k | 0 <= k < n ensures result[k] == Reverse(s)[k] {
      ReverseAt(s, k);
    }
  }

  /** The digits and the zeros in front of them. */
  method WriteZeros(value: int, base: nat, result: array<char>, size: nat, prefix: bool, width: int, fill: char, thSep: char)
    returns (n: nat, negative: bool, thrown: bool)
    requires 2 <= base <= 16 && size <= result.Length
    modifies result
    ensures var written := WithZeros(value, base, prefix, width, fill, thSep);
            && (thrown <==> |written| > size)
            && (!thrown ==> n == |written| && Holds(result, n, written) && (negative <==> value < 0))
  {
    ghost var s := Reversed(Abs(value), base, thSep, 0);
    n, negative, thrown := PutDigits(value, base, result, size, thSep);
    if thrown { return; }
    assert s + "" == s;
    if fill == '0' {
      var room := width;
      if negative { room := room - 1; }
      if prefix && base == 8 { room := room - 1; }
      if prefix && base == 16 { room := room - 2; }
      n, thrown := Pad(result, size, n, room, '0', s);
    }
  }

  method PutPrefix(base: nat, result: array<char>, size: nat, prefix: bool, start: nat, ghost s: string)
    returns (n: nat, thrown: bool)
    requires start == |s| && start <= size <= result.Length && Holds(result, start, s)
    modifies result
    ensures var put := s + (if prefix && base == 8 then "0" else if prefix && base == 16 then "x0" else "");
            (thrown <==> |put| > size) && (!thrown ==> n == |put| && Holds(result, n, put))
  {
    n, thrown := start, false;
    assert s + "" == s && s + "x" + "0" == s + "x0";
    if prefix && base == 8 {
      n, thrown := Put(result, size, n, '0', s);
    } else if prefix && base == 16 {
      n, thrown := Put(result, size, n, 'x', s);
      if thrown { return; }
      n, thrown := Put(result, size, n, '0', s + "x");
    }
  }

  /** Everything before the terminator, lowest digit first. */
  method Write(value: int, base: nat, result: array<char>, size: nat, prefix: bool, width: int, fill: char, thSep: char)
    returns (n: nat, thrown: bool)
    requires 2 <= base <= 16 && size <= result.Length
    modifies result
    ensures var written := Written(value, base, prefix, width, fill, thSep);
            (thrown <==> |written| > size) && (!thrown ==> n == |written| && Holds(result, n, written))
  {
    ghost var s := WithZeros(value, base, prefix, width, fill, thSep);
    var negative;
    n, negative, thrown := WriteZeros(value, base, result, size, prefix, width, fill, thSep);
    if thrown { return; }
    n, thrown := PutPrefix(base, result, size, prefix, n, s);
    if thrown { return; }
    s := s + (if prefix && base == 8 then "0" else if prefix && base == 16 then "x0" else "");
    assert s + "" == s;
    if negative {
      n, thrown := Put(result, size, n, '-', s);
      if thrown { return; }
    }
    s := WithSign(value, base, prefix, width, fill, thSep);
    assert s + "" == s;
    if fill != '0' {
      n, thrown := Pad(result, size, n, width, fill, s);
    }
  }

  // ---------------------------------------------------------------------------
  // Parsing
  // ---------------------------------------------------------------------------

  type Width = bits: nat | bits >= 8 witness 8

  /** The width of `int`: arithmetic on narrower types is done in `int`. */
  const INT_BITS := 32

  datatype IntType = IntType(bits: Width, signed: bool) {
    function Half(): (h: nat)
      ensures h > 0
    {
      Pow2(bits - 1)
    }

    function Min(): int { if signed then 0 - Half() else 0 }

    function Max(): nat { if signed then Half() - 1 else 2 * Half() - 1 }

    predicate Has(x: int) { Min() <= x <= Max() }

    function Wrapped(x: int): (w: int)
      ensures Has(w)
    {
      Within(x, Min(), 2 * Half())
    }
  }

  /** `Undefined`: signed arithmetic overflows, and C++ gives the program no meaning. */
  datatype Parsed = Value(x: int) | Rejected | Undefined

  /** Storing the result of an operation on the type's own values. Unsigned arithmetic is modulo
      the period. A signed type narrower than `int` gets a value computed in `int`, which no product
      with a `short` leaves, and the conversion brings it back into range by two's complement.
      In a wider one the operation itself overflows. */
  function Store(x: int, ty: IntType): Parsed {
    if ty.Has(x) then Value(x)
    else if ty.signed && ty.bits >= INT_BITS then Undefined
    else Value(ty.Wrapped(x))
  }

  predicate IsSpace(c: char) { c == ' ' || '\t' <= c <= '\r' }

  /** The value of a digit character in a base, as the switch of `strToInt` has it. */
  function DigitValue(c: char, base: nat): int {
    if '0' <= c <= '7' then c as int - '0' as int
    else if '8' <= c <= '9' then (if base == 10 || base == 16 then c as int - '0' as int else -1)
    else if 'a' <= c <= 'f' then (if base == 16 then 10 + (c as int - 'a' as int) else -1)
    else if 'A' <= c <= 'F' then (if base == 16 then 10 + (c as int - 'A' as int) else -1)
    else -1
  }

  predicate Skipped(c: char, base: nat, thSep: char) {
    (c == '.' || c == ',' || c == ' ') && base == 10 && thSep == c
  }

  /** The scanning loop, with `result` read so far. */
  function ParseDigits(s: string, result: int, base: nat, thSep: char, ty: IntType): Parsed
    requires base > 0
    decreases |s|
  {
    if s == "" then Value(result)
    else if Skipped(s[0], base, thSep) then ParseDigits(s[1..], result, base, thSep, ty)
    else
      var d := DigitValue(s[0], base);
      if d < 0 || result > ty.Max() / base then Rejected
      else
        var stored := Store(result * base + d, ty);
        if stored.Value? then ParseDigits(s[1..], stored.x, base, thSep, ty) else stored
  }

  function SkipSpaces(s: string): string
    decreases |s|
  {
    if s != "" && IsSpace(s[0]) then SkipSpaces(s[1..]) else s
  }

  /** `result *= -1`. */
  function Negated(p: Parsed, ty: IntType): Parsed { if p.Value? then Store(-p.x, ty) else p }

  /** `strToInt`. */
  function Parse(str: string, base: nat, thSep: char, ty: IntType): Parsed
    requires base > 0
  {
    var s := SkipSpaces(str);
    if s == "" then Rejected
    else if base == 10 && s[0] == '-' then
      (if ty.Min() >= 0 then Rejected else Negated(ParseDigits(s[1..], 0, base, thSep, ty), ty))
    else if s[0] == '+' then ParseDigits(s[1..], 0, base, thSep, ty)
    else ParseDigits(s, 0, base, thSep, ty)
  }

  lemma ZeroChangesNothing(base: nat, ty: IntType)
    requires base > 0
    ensures Store(0 * base + 0, ty) == Value(0) && 0 <= ty.Max() / base
  {
  }

  method StrToInt(str: string, base: nat, thSep: char, ty: IntType) returns (parsed: Parsed)
    requires base > 0
    ensures parsed == Parse(str, base, thSep, ty)
  {
    var i := 0;
    while i < |str| && IsSpace(str[i])
      invariant i <= |str| && SkipSpaces(str[i..]) == SkipSpaces(str)
    {
      assert str[i..][1..] == str[i + 1..];
      i := i + 1;
    }
    if i == |str| {
      return Rejected;
    }
    var sign := 1;
    if base == 10 && str[i] == '-' {
      if ty.Min() >= 0 {
        return Rejected;
      }
      sign := -1;
      i := i + 1;
    } else if str[i] == '+' {
      i := i + 1;
    }
    parsed := ScanDigits(str[i..], base, thSep, ty);
    if parsed.Value? && sign < 0 && base == 10 {
      parsed := Store(parsed.x * sign, ty);
    }
  }

  /** The loop of `strToInt`; leading zeros are passed over without touching the result. */
  method ScanDigits(s: string, base: nat, thSep: char, ty: IntType) returns (parsed: Parsed)
    requires base > 0
    ensures parsed == ParseDigits(s, 0, base, thSep, ty)
  {
    var result := 0;
    var significant, limitCheck := false, ty.Max() / base;
    var i := 0;
    while i < |s|
      invariant i <= |s| && (!significant ==> result == 0)
      invariant ParseDigits(s[i..], result, base, thSep, ty) == ParseDigits(s, 0, base, thSep, ty)
    {
      assert s[i..][1..] == s[i + 1..];
      if s[i] == '0' && !significant {
        ZeroChangesNothing(base, ty);
      } else if !Skipped(s[i], base, thSep) {
        var d := DigitValue(s[i], base);
        if d < 0 || result > limitCheck {
          return Rejected;
        }
        significant := true;
        var stored := Store(result * base + d, ty);
        if !stored.Value? {
          return stored;
        }
        result := stored.x;
      }
      i := i + 1;
    }
    parsed := Value(result);
  }

  // ---------------------------------------------------------------------------
  // Printed and parsed back
  // ---------------------------------------------------------------------------

  lemma {:induction false} ReverseAppend(a: string, b: string)
    ensures Reverse(a + b) == Reverse(b) + Reverse(a)
  {
    if a == "" {
      assert a + b == b;
    } else {
      assert (a + b)[0] == a[0] && (a + b)[1..] == a[1..] + b;
      ReverseAppend(a[1..], b);
    }
  }

  /** Scanning goes on from where it has got. */
  lemma {:induction false} ParseInPieces(a: string, b: string, result: int, base: nat, thSep: char, ty: IntType)
    requires base > 0
    ensures var first := ParseDigits(a, result, base, thSep, ty);
            ParseDigits(a + b, result, base, thSep, ty) == if first.Value? then ParseDigits(b, first.x, base, thSep, ty) else first
    decreases |a|
  {
    hide Store, DigitValue, Skipped;
    if a == "" {
      assert a + b == b;
    } else {
      assert (a + b)[0] == a[0] && (a + b)[1..] == a[1..] + b;
      var d := DigitValue(a[0], base);
      var stored := Store(result * base + d, ty);
      if Skipped(a[0], base, thSep) {
        ParseInPieces(a[1..], b, result, base, thSep, ty);
      } else if d >= 0 && result <= ty.Max() / base && stored.Value? {
        ParseInPieces(a[1..], b, stored.x, base, thSep, ty);
      }
    }
  }

  /** The bases whose digits the parser knows. */
  predicate ParsesBase(base: nat) { 2 <= base <= 8 || base == 10 || base == 16 }

  lemma DigitComesBack(d: nat, base: nat)
    requires ParsesBase(base) && d < base
    ensures DigitValue(Digit(d), base) == d && !Skipped(Digit(d), base, ',')
  {
  }

  lemma LargerProduct(q: nat, p: nat, base: nat)
    ensures q > p ==> q * base >= p * base + base
  {
    if q > p {
      var k: nat := q - p - 1;
      assert q * base == p * base + base + k * base;
    }
  }

  /** The guard never fires on the digits of a value in range. */
  lemma GuardHolds(v: nat, base: nat, max: nat)
    requires 2 <= base && v <= max
    ensures High(v, base) <= max / base && High(v, base) * base + Low(v, base) == v
  {
    var q, p := v / base, max / base;
    assert v == q * base + v % base;
    assert max == p * base + max % base;
    LargerProduct(q, p, base);
  }

  lemma ParseOne(c: char, result: int, d: nat, base: nat, ty: IntType)
    requires base > 0 && DigitValue(c, base) == d && !Skipped(c, base, ',') && result <= ty.Max() / base
    ensures ParseDigits([c], result, base, ',', ty) == Store(result * base + d, ty)
  {
    assert [c][1..] == "";
  }

  lemma TurnedRound(digit: char, sep: string, rest: string)
    requires |sep| <= 1
    ensures Reverse([digit] + sep + rest) == Reverse(rest) + (sep + [digit])
  {
    ReverseAppend([digit] + sep, rest);
    ReverseAppend([digit], sep);
    assert Reverse([digit]) == [digit] && Reverse(sep) == sep;
  }

  /** Higher digits, perhaps a separator, and a digit. */
  lemma ParseLastDigit(higher: string, h: nat, sep: string, digit: char, d: nat, base: nat, ty: IntType)
    requires base > 0 && ParseDigits(higher, 0, base, ',', ty) == Value(h) && (sep == "" || (sep == "," && base == 10))
    requires DigitValue(digit, base) == d && !Skipped(digit, base, ',') && h <= ty.Max() / base
    ensures ParseDigits(higher + (sep + [digit]), 0, base, ',', ty) == Store(h * base + d, ty)
  {
    ParseInPieces(higher, sep + [digit], 0, base, ',', ty);
    assert ParseDigits(sep, h, base, ',', ty) == Value(h);
    ParseInPieces(sep, [digit], h, base, ',', ty);
    ParseOne(digit, h, d, base, ty);
  }

  /** What printing a value starts with, and what is left to print. */
  lemma LastDigit(v: nat, base: nat, thSep: char, count: nat)
    returns (h: nat, d: nat, digit: char, sep: string, rest: string)
    requires ParsesBase(base) && (thSep == NO_SEPARATOR || thSep == ',')
    ensures Reverse(Reversed(v, base, thSep, count)) == Reverse(rest) + (sep + [digit])
    ensures h == High(v, base) && h * base + d == v && DigitValue(digit, base) == d && !Skipped(digit, base, ',')
    ensures sep == "" || (sep == "," && base == 10)
    ensures if v < base then h == 0 && rest == "" else h < v && rest == Reversed(h, base, thSep, NextCount(base, thSep, count))
  {
    h, d, digit, sep := High(v, base), Low(v, base), Digit(Low(v, base)), Separator(base, thSep, count);
    rest := if v < base then "" else Reversed(h, base, thSep, NextCount(base, thSep, count));
    GuardHolds(v, base, v);
    DigitComesBack(d, base);
    TurnedRound(digit, sep, rest);
  }

  /** Digits whose number passes the guard are in range, and passed it themselves. */
  lemma GuardPassedBefore(v: nat, base: nat, max: nat)
    requires 2 <= base && High(v, base) <= max / base
    ensures High(v, base) <= max && High(High(v, base), base) <= max / base
  {
    assert High(max, base) <= max;
    GuardHolds(High(v, base), base, max);
  }

  /** Digits and separators, turned round, are scanned as the value, as far as the type has it.
      The guard looks only at the digits before the last, so a value above the maximum that
      agrees with it there is stored too, for what that is worth. */
  lemma {:induction false} DigitsComeBack(v: nat, base: nat, thSep: char, count: nat, ty: IntType)
    requires ParsesBase(base) && High(v, base) <= ty.Max() / base && (thSep == NO_SEPARATOR || thSep == ',')
    ensures ParseDigits(Reverse(Reversed(v, base, thSep, count)), 0, base, ',', ty) == Store(v, ty)
    decreases v
  {
    hide Reversed, High;
    var h, d, digit, sep, rest := LastDigit(v, base, thSep, count);
    var higher := Reverse(rest);
    GuardPassedBefore(v, base, ty.Max());
    assert ParseDigits(higher, 0, base, ',', ty) == Value(h) by {
      if v >= base {
        DigitsComeBack(h, base, thSep, NextCount(base, thSep, count), ty);
      }
    }
    ParseLastDigit(higher, h, sep, digit, d, base, ty);
  }

  lemma {:induction false} RepeatReversed(c: char, n: int)
    ensures Reverse(Repeat(c, n)) == Repeat(c, n)
    ensures n > 0 ==> Repeat(c, n) == [c] + Repeat(c, n - 1)
    decreases n
  {
    if n <= 0 {
    } else {
      RepeatReversed(c, n - 1);
      ReverseAppend(Repeat(c, n - 1), [c]);
      if n > 1 { assert [c] + Repeat(c, n - 1) == ([c] + Repeat(c, n - 2)) + [c]; }
    }
  }

  lemma {:induction false} ZerosPass(n: int, rest: string, base: nat, ty: IntType)
    requires base > 0
    ensures ParseDigits(Repeat('0', n) + rest, 0, base, ',', ty) == ParseDigits(rest, 0, base, ',', ty)
    decreases n
  {
    if n > 0 {
      RepeatReversed('0', n);
      var s := Repeat('0', n) + rest;
      assert s[0] == '0' && s[1..] == Repeat('0', n - 1) + rest;
      ZeroChangesNothing(base, ty);
      ZerosPass(n - 1, rest, base, ty);
    } else {
      assert "" + rest == rest;
    }
  }

  lemma {:induction false} SpacesPass(n: int, rest: string)
    requires rest != "" && !IsSpace(rest[0])
    ensures SkipSpaces(Repeat(' ', n) + rest) == rest
    decreases n
  {
    if n > 0 {
      RepeatReversed(' ', n);
      var s := Repeat(' ', n) + rest;
      assert s[0] == ' ' && s[1..] == Repeat(' ', n - 1) + rest;
      SpacesPass(n - 1, rest);
    } else {
      assert "" + rest == rest;
    }
  }

  predicate StartsNumber(c: char) { c == ',' || '0' <= c <= '9' || 'A' <= c <= 'F' }

  lemma {:induction false} LastOfReversed(v: nat, base: nat, thSep: char, count: nat)
    requires 2 <= base <= 16 && (thSep == NO_SEPARATOR || thSep == ',')
    ensures var s := Reversed(v, base, thSep, count); StartsNumber(s[|s| - 1])
    decreases v
  {
    var next := NextCount(base, thSep, count);
    if v < base {
    } else {
      LastOfReversed(High(v, base), base, thSep, next);
    }
  }

  /** The number without spaces and sign: zeros, then digits and separators. */
  lemma NumberComesBack(value: int, base: nat, width: int, fill: char, thSep: char, ty: IntType) returns (number: string)
    requires ParsesBase(base) && High(Abs(value), base) <= ty.Max() / base && (thSep == NO_SEPARATOR || thSep == ',')
    ensures number == Reverse(WithZeros(value, base, false, width, fill, thSep))
    ensures number != "" && StartsNumber(number[0]) && ParseDigits(number, 0, base, ',', ty) == Store(Abs(value), ty)
  {
    var digits := Reversed(Abs(value), base, thSep, 0);
    var room := width - if value < 0 then 1 else 0;
    var n := if fill == '0' then room - |digits| else 0;
    number := Reverse(WithZeros(value, base, false, width, fill, thSep));
    assert WithZeros(value, base, false, width, fill, thSep) == digits + Repeat('0', n);
    ReverseAppend(digits, Repeat('0', n));
    RepeatReversed('0', n);
    DigitsComeBack(Abs(value), base, thSep, 0, ty);
    ZerosPass(n, Reverse(digits), base, ty);
    LastOfReversed(Abs(value), base, thSep, 0);
    ReverseAt(digits, 0);
  }

  lemma PrintedParts(value: int, base: nat, width: int, fill: char, thSep: char, number: string)
    requires 2 <= base <= 16 && (fill == ' ' || fill == '0')
    requires number == Reverse(WithZeros(value, base, false, width, fill, thSep))
    ensures exists n: int :: Printed(value, base, false, width, fill, thSep) ==
                             Repeat(' ', n) + ((if value < 0 then "-" else "") + number)
  {
    var zeros := WithZeros(value, base, false, width, fill, thSep);
    var sign := if value < 0 then "-" else "";
    var signed := WithSign(value, base, false, width, fill, thSep);
    var n := if fill == ' ' then width - |signed| else 0;
    assert signed == zeros + sign by { assert zeros + "" == zeros; }
    assert Written(value, base, false, width, fill, thSep) == signed + Repeat(' ', n);
    ReverseAppend(signed, Repeat(' ', n));
    ReverseAppend(zeros, sign);
    RepeatReversed(' ', n);
    assert Reverse(sign) == sign;
  }

  /** What is left of a printed value when the spaces are skipped. */
  lemma SkipsToNumber(value: int, base: nat, width: int, fill: char, thSep: char, ty: IntType) returns (number: string)
    requires ParsesBase(base) && High(Abs(value), base) <= ty.Max() / base && (fill == ' ' || fill == '0') && (thSep == NO_SEPARATOR || thSep == ',')
    ensures number != "" && StartsNumber(number[0]) && ParseDigits(number, 0, base, ',', ty) == Store(Abs(value), ty)
    ensures SkipSpaces(Printed(value, base, false, width, fill, thSep)) == if value < 0 then "-" + number else number
  {
    number := NumberComesBack(value, base, width, fill, thSep, ty);
    PrintedParts(value, base, width, fill, thSep, number);
    var sign := if value < 0 then "-" else "";
    var n: int :| Printed(value, base, false, width, fill, thSep) == Repeat(' ', n) + (sign + number);
    SpacesPass(n, sign + number);
    assert value >= 0 ==> sign + number == number;
  }

  /** The magnitude of a signed type's minimum passes the guard: a power of two is no multiple
      of ten, so without its last digit it is no larger than the maximum without its own. */
  lemma MinimumPassesGuard(ty: IntType)
    requires ty.signed
    ensures High(ty.Half(), 10) <= ty.Max() / 10
  {
    PowerNotTens(ty.bits - 1);
    OneLess(ty.Half());
  }

  lemma OneLess(p: nat)
    requires p % 5 != 0 && p > 0
    ensures p / 10 <= (p - 1) / 10
  {
  }

  /** Negating the magnitude gives the value, also where storing the magnitude wraps. */
  lemma NegatedMagnitude(value: int, ty: IntType)
    requires ty.signed && ty.Has(value) && value < 0
    ensures Negated(Store(-value, ty), ty) == if value == ty.Min() && ty.bits >= INT_BITS then Undefined else Value(value)
  {
    if value == ty.Min() {
      OnePeriodAway(-value, ty.Min(), 2 * ty.Half());
    }
  }

  lemma MagnitudePassesGuard(value: int, ty: IntType)
    requires ty.signed && ty.Has(value)
    ensures High(Abs(value), 10) <= ty.Max() / 10
  {
    if value == ty.Min() {
      MinimumPassesGuard(ty);
    } else {
      GuardHolds(Abs(value), 10, ty.Max());
    }
  }

  /** `strToInt` undoes `intToStr` in base 10 for every value of a signed type narrower than
      `int`, and for every value but the minimum of a wider one, where it overflows: with any
      width, space or zero fill, with or without comma separators. */
  lemma IntComesBack(value: int, width: int, fill: char, thSep: char, ty: IntType)
    requires ty.signed && ty.Has(value) && (fill == ' ' || fill == '0') && (thSep == NO_SEPARATOR || thSep == ',')
    ensures Parse(Printed(value, 10, false, width, fill, thSep), 10, ',', ty) ==
            if value == ty.Min() && ty.bits >= INT_BITS then Undefined else Value(value)
  {
    MagnitudePassesGuard(value, ty);
    var number := SkipsToNumber(value, 10, width, fill, thSep, ty);
    if value < 0 {
      assert ("-" + number)[1..] == number;
      NegatedMagnitude(value, ty);
    }
  }

  /** And the unsigned pair in every base the parser knows. */
  lemma UIntComesBack(value: nat, base: nat, width: int, fill: char, thSep: char, ty: IntType)
    requires ParsesBase(base) && !ty.signed && ty.Has(value) && (fill == ' ' || fill == '0') && (thSep == NO_SEPARATOR || thSep == ',')
    ensures Parse(Printed(value, base, false, width, fill, thSep), base, ',', ty) == Value(value)
  {
    GuardHolds(value, base, ty.Max());
    var number := SkipsToNumber(value, base, width, fill, thSep, ty);
    assert !IsSpace(number[0]) && number[0] != '-' && number[0] != '+';
  }

  lemma LittleAbove(value: nat, base: nat, max: nat)
    requires 2 <= base && High(value, base) <= max / base
    ensures value < max + base
  {
    var h, top := High(value, base), max / base;
    assert value == h * base + value % base && max == top * base + max % base;
    LargerProduct(top, h, base);
  }

  lemma JustAbove(value: nat, base: nat, ty: IntType)
    requires 2 <= base <= 16 && !ty.signed && ty.Max() < value && High(value, base) <= ty.Max() / base
    ensures Store(value, ty) == Value(value - ty.Max() - 1)
  {
    var max := ty.Max();
    EightBitsAtLeast(ty.bits - 1);
    LittleAbove(value, base, max);
    OnePeriodAway(value, ty.Min(), 2 * ty.Half());
  }

  lemma {:induction false} EightBitsAtLeast(n: nat)
    requires n >= 7
    ensures Pow2(n) >= 128
  {
    if n == 7 {
      assert Pow2(3) == 8 && Pow2(6) == 64;
    } else {
      EightBitsAtLeast(n - 1);
    }
  }

  /** A number above the maximum of an unsigned type, whose digits but the last are in range, is
      rejected exactly if those exceed the maximum's without its last. If they equal them, the
      number is accepted, as what is left of it after one period. */
  lemma AboveMaximum(value: nat, base: nat, thSep: char, ty: IntType)
    requires ParsesBase(base) && !ty.signed && (thSep == NO_SEPARATOR || thSep == ',')
    requires ty.Max() < value && High(value, base) <= ty.Max()
    ensures var parsed := ParseDigits(Reverse(Reversed(value, base, thSep, 0)), 0, base, ',', ty);
            if High(value, base) <= ty.Max() / base then parsed == Value(value - ty.Max() - 1) else parsed == Rejected
  {
    var h, d, digit, sep, rest := LastDigit(value, base, thSep, 0);
    if h <= ty.Max() / base {
      DigitsComeBack(value, base, thSep, 0, ty);
      JustAbove(value, base, ty);
    } else {
      GuardHolds(h, base, ty.Max());
      DigitsComeBack(h, base, thSep, NextCount(base, thSep, 0), ty);
      ParseInPieces(Reverse(rest), sep + [digit], 0, base, ',', ty);
    }
  }

  /** The digits of a number, highest first, and what they spell. */
  predicate AreDigits(ds: seq<nat>, base: nat) { forall k :: 0 <= k < |ds| ==> ds[k] < base }

  function Text(ds: seq<nat>): string
    requires AreDigits(ds, 16)
  {
    if ds == [] then "" else Text(ds[..|ds| - 1]) + [Digit(ds[|ds| - 1])]
  }

  function Number(ds: seq<nat>, base: nat): nat {
    if ds == [] then 0 else Number(ds[..|ds| - 1], base) * base + ds[|ds| - 1]
  }

  function Scan(ds: seq<nat>, base: nat, ty: IntType): Parsed
    requires ParsesBase(base) && AreDigits(ds, base)
  {
    ParseDigits(Text(ds), 0, base, ',', ty)
  }

  /** What the scan ought to say of a number. */
  function InRangeOrRejected(v: nat, ty: IntType): Parsed { if v <= ty.Max() then Value(v) else Rejected }

  predicate ScanIsRight(ds: seq<nat>, base: nat, ty: IntType)
    requires ParsesBase(base) && AreDigits(ds, base)
  {
    Scan(ds, base, ty) == InRangeOrRejected(Number(ds, base), ty)
  }

  /** The first k digits are those of the maximum but its last, and the next one is larger than
      that. */
  predicate JustExceeds(ds: seq<nat>, k: nat, base: nat, ty: IntType)
    requires k < |ds| && base > 0
  {
    Number(ds[..k], base) == ty.Max() / base && ds[k] > ty.Max() % base
  }

  lemma LastScanned(ds: seq<nat>, base: nat, ty: IntType)
    requires ParsesBase(base) && AreDigits(ds, base) && ds != []
    ensures var d, front := ds[|ds| - 1], Scan(ds[..|ds| - 1], base, ty);
            Scan(ds, base, ty) ==
            if !front.Value? then front else if front.x > ty.Max() / base then Rejected else Store(front.x * base + d, ty)
  {
    hide Store, Skipped, DigitValue, Digit;
    var d, a := ds[|ds| - 1], Text(ds[..|ds| - 1]);
    ParseInPieces(a, [Digit(d)], 0, base, ',', ty);
    DigitComesBack(d, base);
    assert [Digit(d)][1..] == "";
  }

  lemma MultipleAndRest(v: nat, d: nat, base: nat, max: nat)
    requires d < base
    ensures v > max / base ==> v * base + d > max
    ensures v * base + d >= v
    ensures v <= max / base ==> (v * base + d > max <==> v == max / base && d > max % base)
  {
    assert max == (max / base) * base + max % base;
    Placed(v, d, max / base, max % base, base);
  }

  lemma Placed(v: nat, d: nat, p: nat, r: nat, base: nat)
    requires d < base && r < base
    ensures v > p ==> v * base + d > p * base + r
    ensures v < p ==> v * base + d < p * base + r
    ensures v * base >= v
  {
    LargerProduct(v, p, base);
    LargerProduct(p, v, base);
    assert v * base == v + v * (base - 1);
  }

  lemma StoredIsRight(v: nat, ty: IntType)
    ensures Store(v, ty) == InRangeOrRejected(v, ty) <==> v <= ty.Max()
  {
  }

  /** The last digit is scanned right exactly unless the number just exceeds there. */
  lemma LastIsRight(ds: seq<nat>, base: nat, ty: IntType)
    requires ParsesBase(base) && AreDigits(ds, base) && ds != [] && ScanIsRight(ds[..|ds| - 1], base, ty)
    ensures ScanIsRight(ds, base, ty) <==> !JustExceeds(ds, |ds| - 1, base, ty)
  {
    var d, v := ds[|ds| - 1], Number(ds[..|ds| - 1], base);
    LastScanned(ds, base, ty);
    MultipleAndRest(v, d, base, ty.Max());
    StoredIsRight(v * base + d, ty);
    assert High(ty.Max(), base) <= ty.Max();
  }

  /** For every type, base and string of digits: numbers in range are read and numbers above it
      rejected, here and in every beginning of the string, exactly if no beginning of it is the
      maximum but for a larger last digit. */
  lemma {:induction false} ReadOrRejected(ds: seq<nat>, base: nat, ty: IntType)
    requires ParsesBase(base) && AreDigits(ds, base)
    ensures (forall k: nat :: k <= |ds| ==> ScanIsRight(ds[..k], base, ty)) <==>
            (forall k: nat :: k < |ds| ==> !JustExceeds(ds, k, base, ty))
    decreases |ds|
  {
    assert ds[..|ds|] == ds;
    if ds == [] {
    } else {
      var front := ds[..|ds| - 1];
      ReadOrRejected(front, base, ty);
      forall k: nat | k <= |front| ensures front[..k] == ds[..k] {}
      forall k: nat | k < |front| ensures JustExceeds(ds, k, base, ty) == JustExceeds(front, k, base, ty) {
        assert front[..k] == ds[..k];
      }
      if ScanIsRight(front, base, ty) { LastIsRight(ds, base, ty); }
      Extends(ds, base, ty);
    }
  }

  lemma Extends(ds: seq<nat>, base: nat, ty: IntType)
    requires ParsesBase(base) && AreDigits(ds, base) && ds != []
    ensures var front := ds[..|ds| - 1];
            (forall k: nat :: k <= |ds| ==> ScanIsRight(ds[..k], base, ty)) <==>
            (forall k: nat :: k <= |front| ==> ScanIsRight(front[..k], base, ty)) && ScanIsRight(ds, base, ty)
  {
    var front := ds[..|ds| - 1];
    assert ds[..|ds|] == ds && front[..|front|] == front;
    forall k: nat | k <= |front| ensures front[..k] == ds[..k] {}
  }

  function DigitCount(v: nat, base: nat): nat
    requires 2 <= base
    decreases v
  {
    if v < base then 1 else 1 + DigitCount(High(v, base), base)
  }

  lemma {:induction false} EndsWithSeparator(v: nat, count: nat)
    requires count <= 2
    ensures var s := Reversed(v, 10, ',', count); s[|s| - 1] == ',' <==> (count + DigitCount(v, 10)) % 3 == 0
    decreases v
  {
    assert Digit(Low(v, 10)) != ',';
    if v < 10 {
    } else {
      EndsWithSeparator(High(v, 10), NextCount(10, ',', count));
    }
  }

  /** A number is printed with a separator in front exactly when its digits fill their groups. */
  lemma LeadingSeparator(value: nat)
    ensures var s := Printed(value, 10, false, -1, ' ', ','); s != "" && (s[0] == ',' <==> DigitCount(value, 10) % 3 == 0)
  {
    var s := Reversed(value, 10, ',', 0);
    assert Written(value, 10, false, -1, ' ', ',') == s;
    ReverseAt(s, 0);
    EndsWithSeparator(value, 0);
  }

  // ---------------------------------------------------------------------------
  // What a printed value looks like
  // ---------------------------------------------------------------------------

  /** Digits from 10 on are capital letters. */
  lemma DigitsAreCapital(d: nat)
    requires d < 16
    ensures Digit(d) as int == if d < 10 then '0' as int + d else 'A' as int + (d - 10)
  {
  }

  /** The numeral of a value: digits that spell it, without a zero in front. */
  predicate IsNumeral(ds: seq<nat>, v: nat, base: nat) {
    AreDigits(ds, base) && Number(ds, base) == v && ds != [] && (ds[0] != 0 || |ds| == 1)
  }

  lemma {:induction false} PrintsNumeral(v: nat, base: nat) returns (ds: seq<nat>)
    requires 2 <= base <= 16
    ensures IsNumeral(ds, v, base) && (v > 0 ==> ds[0] != 0) && Reverse(Reversed(v, base, NO_SEPARATOR, 0)) == Text(ds)
    decreases v
  {
    var h, d := High(v, base), Low(v, base);
    GuardHolds(v, base, v);
    var s := [Digit(d)] + "" + if v < base then "" else Reversed(h, base, NO_SEPARATOR, 0);
    assert s == Reversed(v, base, NO_SEPARATOR, 0);
    if v < base {
      ds := [d];
      assert ds[..0] == [] && s == [Digit(d)] && Reverse(s) == [Digit(d)];
    } else {
      var higher := PrintsNumeral(h, base);
      ds := higher + [d];
      assert ds[..|ds| - 1] == higher;
      assert s == [Digit(d)] + Reversed(h, base, NO_SEPARATOR, 0);
      ReverseAppend([Digit(d)], Reversed(h, base, NO_SEPARATOR, 0));
      assert Reverse([Digit(d)]) == [Digit(d)];
    }
  }

  /** s is plain with a separator after every third digit, `count` digits of the first group being
      there already. */
  predicate GroupedAs(s: string, plain: string, thSep: char, count: nat) {
    && |s| == |plain| + (|plain| + count) / 3
    && forall k :: 0 <= k < |s| ==> GroupedChar(s, plain, thSep, count, k)
  }

  predicate GroupedChar(s: string, plain: string, thSep: char, count: nat, k: nat)
    requires k < |s|
  {
    if (k + count) % 4 == 3 then s[k] == thSep
    else 0 <= k - (k + count) / 4 < |plain| && s[k] == plain[k - (k + count) / 4]
  }

  lemma OneMoreDigit(s: string, plain: string, d: char, thSep: char, count: nat)
    requires count <= 2 && GroupedAs(s, plain, thSep, if count == 2 then 0 else count + 1)
    ensures GroupedAs((if count == 2 then [d, thSep] else [d]) + s, [d] + plain, thSep, count)
  {
    var first := if count == 2 then [d, thSep] else [d];
    forall k | 0 <= k < |first + s| ensures GroupedChar(first + s, [d] + plain, thSep, count, k) {
      if k >= |first| { assert GroupedChar(s, plain, thSep, if count == 2 then 0 else count + 1, k - |first|); }
    }
  }

  /** With separators: counted from the right, every fourth character is one, and the others are
      those of the numeral without them. */
  lemma {:induction false} Grouped(v: nat, thSep: char, count: nat)
    requires Separates(10, thSep) && count <= 2
    ensures GroupedAs(Reversed(v, 10, thSep, count), Reversed(v, 10, NO_SEPARATOR, 0), thSep, count)
    decreases v
  {
    hide GroupedAs;
    var d, first := Digit(Low(v, 10)), [Digit(Low(v, 10))] + Separator(10, thSep, count);
    var rest := if v < 10 then "" else Reversed(High(v, 10), 10, thSep, NextCount(10, thSep, count));
    var others := if v < 10 then "" else Reversed(High(v, 10), 10, NO_SEPARATOR, 0);
    assert Reversed(v, 10, thSep, count) == first + rest && first == if count == 2 then [d, thSep] else [d];
    assert Reversed(v, 10, NO_SEPARATOR, 0) == [d] + others by { assert [d] + "" == [d]; }
    if v >= 10 { Grouped(High(v, 10), thSep, NextCount(10, thSep, count)); } else { NothingGrouped(thSep, if count == 2 then 0 else count + 1); }
    OneMoreDigit(rest, others, d, thSep, count);
  }

  lemma NothingGrouped(thSep: char, count: nat)
    requires count <= 2
    ensures GroupedAs("", "", thSep, count)
  {
  }

  function PrefixText(base: nat, prefix: bool): string {
    if prefix && base == 8 then "0" else if prefix && base == 16 then "0x" else ""
  }

  /** What stands before the digits. */
  function Lead(value: int, base: nat, prefix: bool): string {
    (if value < 0 then "-" else "") + PrefixText(base, prefix)
  }

  /** The digits of the magnitude, as they are read. */
  function Numeral(value: int, base: nat, thSep: char): string
    requires 2 <= base <= 16
  {
    Reverse(Reversed(Abs(value), base, thSep, 0))
  }

  /** The text for any width, fill, prefix and separator: sign, prefix and digits, in this order;
      zeros that fill up to the width stand before the digits, any other fill before it all. */
  function Formatted(value: int, base: nat, prefix: bool, width: int, fill: char, thSep: char): string
    requires 2 <= base <= 16
  {
    var lead, numeral := Lead(value, base, prefix), Numeral(value, base, thSep);
    var n := width - |lead| - |numeral|;
    if fill == '0' then lead + (Repeat('0', n) + numeral) else Repeat(fill, n) + (lead + numeral)
  }

  lemma TurnedLead(value: int, base: nat, prefix: bool)
    ensures var put := (if prefix && base == 8 then "0" else if prefix && base == 16 then "x0" else "");
            Reverse(put + if value < 0 then "-" else "") == Lead(value, base, prefix)
  {
    var put := (if prefix && base == 8 then "0" else if prefix && base == 16 then "x0" else "");
    var sign := if value < 0 then "-" else "";
    ReverseAppend(put, sign);
    assert Reverse(sign) == sign;
    ReverseAppend("x", "0");
    assert Reverse("x") == "x" && Reverse("0") == "0" && "x" + "0" == "x0" && "0" + "x" == "0x";
    assert Reverse(put) == PrefixText(base, prefix);
  }

  /** The digits, zeros in front of them if asked for, and the lead. */
  lemma TurnedWithSign(value: int, base: nat, prefix: bool, width: int, fill: char, thSep: char)
    requires 2 <= base <= 16
    ensures var lead, numeral := Lead(value, base, prefix), Numeral(value, base, thSep);
            var n := if fill == '0' then width - |lead| - |numeral| else 0;
            Reverse(WithSign(value, base, prefix, width, fill, thSep)) == lead + (Repeat('0', n) + numeral)
  {
    hide Reversed, Reverse, Repeat;
    var lead, numeral := Lead(value, base, prefix), Numeral(value, base, thSep);
    var n := if fill == '0' then width - |lead| - |numeral| else 0;
    var digits := Reversed(Abs(value), base, thSep, 0);
    var put := (if prefix && base == 8 then "0" else if prefix && base == 16 then "x0" else "");
    var sign := if value < 0 then "-" else "";
    var zeros := WithZeros(value, base, prefix, width, fill, thSep);
    assert zeros == digits + Repeat('0', n);
    assert WithSign(value, base, prefix, width, fill, thSep) == zeros + (put + sign);
    ReverseAppend(zeros, put + sign);
    ReverseAppend(digits, Repeat('0', n));
    RepeatReversed('0', n);
    TurnedLead(value, base, prefix);
  }

  /** What is printed is that text, as long as the width, or as the text itself if it is longer. */
  lemma PrintedShape(value: int, base: nat, prefix: bool, width: int, fill: char, thSep: char)
    requires 2 <= base <= 16
    ensures var lead, numeral := Lead(value, base, prefix), Numeral(value, base, thSep);
            var printed := Printed(value, base, prefix, width, fill, thSep);
            && printed == Formatted(value, base, prefix, width, fill, thSep)
            && |printed| == if |lead| + |numeral| < width then width else |lead| + |numeral|
  {
    var lead, numeral := Lead(value, base, prefix), Numeral(value, base, thSep);
    var signed := WithSign(value, base, prefix, width, fill, thSep);
    TurnedWithSign(value, base, prefix, width, fill, thSep);
    if fill == '0' {
      assert Written(value, base, prefix, width, fill, thSep) == signed;
    } else {
      assert Repeat('0', 0) + numeral == numeral;
      ReverseAppend(signed, Repeat(fill, width - |signed|));
      RepeatReversed(fill, width - |signed|);
    }
  }

  // ---------------------------------------------------------------------------
  // What the parser makes of a character
  // ---------------------------------------------------------------------------

  /** Decimal digits and letters of either case have their value where the base has use for them;
      no other character is a digit. */
  lemma CharacterRead(c: char, base: nat)
    ensures var v := DigitValue(c, base);
            if '0' <= c <= '7' || ('8' <= c <= '9' && (base == 10 || base == 16)) then v == c as int - 48
            else if base == 16 && ('A' <= c <= 'F' || 'a' <= c <= 'f') then v == 10 + (c as int - 65) % 32
            else v < 0
  {
  }

  /** Every digit read is one of the base exactly from base 8 on. */
  lemma DigitsBelowBase(base: nat)
    ensures (forall c: char :: DigitValue(c, base) < base) <==> base >= 8
  {
    if base < 8 { assert DigitValue('7', base) == 7; }
  }

  /** The characters `isspace` tells apart: space, tab, line feed, vertical tab, form feed and
      carriage return. */
  const SPACES: set<char> := {' ', '\t', '\n', '\U{B}', '\U{C}', '\r'}

  lemma {:induction false} SpacesSkipped(spaces: string, s: string)
    requires forall k :: 0 <= k < |spaces| ==> spaces[k] in SPACES
    ensures SkipSpaces(spaces + s) == SkipSpaces(s)
    ensures s != "" && s[0] !in SPACES ==> SkipSpaces(s) == s
  {
    if spaces == "" {
      assert spaces + s == s;
    } else {
      assert (spaces + s)[0] == spaces[0] && (spaces + s)[1..] == spaces[1..] + s;
      SpacesSkipped(spaces[1..], s);
    }
  }

  /** What comes before the digits: white space is passed over, a plus sign too; a minus sign turns
      the number round in base 10 for a signed type, and is refused otherwise; nothing at all is no
      number. */
  lemma SignsRead(spaces: string, s: string, base: nat, thSep: char, ty: IntType)
    requires base > 0 && forall k :: 0 <= k < |spaces| ==> spaces[k] in SPACES
    ensures var scan := ParseDigits(s, 0, base, thSep, ty);
            && Parse(spaces + ("+" + s), base, thSep, ty) == scan
            && Parse(spaces + ("-" + s), base, thSep, ty) == (if base == 10 && ty.signed then Negated(scan, ty) else Rejected)
            && Parse(spaces, base, thSep, ty) == Rejected
            && (s != "" && s[0] !in SPACES && s[0] != '+' && s[0] != '-' ==> Parse(spaces + s, base, thSep, ty) == scan)
  {
    SpacesSkipped(spaces, "+" + s);
    SpacesSkipped(spaces, "-" + s);
    SpacesSkipped(spaces, "");
    SpacesSkipped(spaces, s);
    assert ("+" + s)[1..] == s && ("-" + s)[1..] == s && spaces + "" == spaces;
  }

  /** In base 10 the thousand separator asked for, a dot, a comma or a space, may stand anywhere among
      the digits. */
  lemma SeparatorsPassedOver(a: string, thSep: char, b: string, result: int, ty: IntType)
    requires thSep == '.' || thSep == ',' || thSep == ' '
    ensures ParseDigits(a + ([thSep] + b), result, 10, thSep, ty) == ParseDigits(a + b, result, 10, thSep, ty)
  {
    ParseInPieces(a, [thSep] + b, result, 10, thSep, ty);
    ParseInPieces(a, b, result, 10, thSep, ty);
    assert ([thSep] + b)[1..] == b;
  }

  /** A separator is passed over in base 10 where it is the one asked for; elsewhere it is refused,
      like every character that is no digit. */
  lemma {:induction false} OthersRejected(s: string, k: nat, result: int, base: nat, thSep: char, ty: IntType)
    requires base > 0 && k < |s| && DigitValue(s[k], base) < 0
    requires !(base == 10 && s[k] == thSep && (s[k] == '.' || s[k] == ',' || s[k] == ' '))
    ensures !ParseDigits(s, result, base, thSep, ty).Value?
    decreases |s|
  {
    hide DigitValue, Store;
    if k > 0 {
      var d := DigitValue(s[0], base);
      var stored := Store(result * base + d, ty);
      if Skipped(s[0], base, thSep) {
        OthersRejected(s[1..], k - 1, result, base, thSep, ty);
      } else if d >= 0 && result <= ty.Max() / base && stored.Value? {
        OthersRejected(s[1..], k - 1, stored.x, base, thSep, ty);
      }
    }
  }
}
