/** Fixed-width integers in network byte order (`hostToNetwork16/32/64` and back), two's
    complement for negative values. */
module NetworkOrder {
  type byte = x: int | 0 <= x < 256

  function Pow256(n: nat): (p: nat)
    ensures p > 0
  {
    if n == 0 then 1 else 256 * Pow256(n - 1)
  }

  /** The low n bytes of x, most significant first. */
  function BigEndian(x: int, n: nat): (s: seq<byte>)
    ensures |s| == n
    decreases n
  {
    if n == 0 then [] else BigEndian(x / 256, n - 1) + [x % 256]
  }

  function Unsigned(s: seq<byte>): nat {
    if s == [] then 0 else 256 * Unsigned(s[..|s| - 1]) + s[|s| - 1]
  }

  /** The signed integer of the bytes' width. */
  function Signed(s: seq<byte>): int {
    if 2 * Unsigned(s) < Pow256(|s|) then Unsigned(s) else Unsigned(s) - Pow256(|s|)
  }

  /** What n bytes can hold. */
  predicate Fits(x: int, n: nat) { 0 - Pow256(n) <= 2 * x < Pow256(n) }

  lemma {:induction false} UnsignedInRange(s: seq<byte>)
    ensures Unsigned(s) < Pow256(|s|)
  {
    if s == [] {
    } else {
      UnsignedInRange(s[..|s| - 1]);
    }
  }

  lemma {:induction false} UnsignedOfBigEndian(u: nat, n: nat)
    requires u < Pow256(n)
    ensures Unsigned(BigEndian(u, n)) == u
  {
    if n == 0 {
    } else {
      UnsignedOfBigEndian(u / 256, n - 1);
      assert BigEndian(u, n)[..n - 1] == BigEndian(u / 256, n - 1);
    }
  }

  lemma {:induction false} BigEndianOfUnsigned(s: seq<byte>)
    ensures BigEndian(Unsigned(s), |s|) == s
  {
    if s == [] {
    } else {
      BigEndianOfUnsigned(s[..|s| - 1]);
      assert Unsigned(s) / 256 == Unsigned(s[..|s| - 1]);
    }
  }

  /** The bytes repeat with the period of the width. */
  lemma {:induction false} BigEndianWraps(x: int, n: nat)
    ensures BigEndian(x + Pow256(n), n) == BigEndian(x, n)
    decreases n
  {
    if n == 0 {
    } else {
      assert (x + Pow256(n)) / 256 == x / 256 + Pow256(n - 1);
      BigEndianWraps(x / 256, n - 1);
    }
  }

  /** Peeking at an appended integer returns it. */
  lemma SignedOfBigEndian(x: int, n: nat)
    requires Fits(x, n)
    ensures Signed(BigEndian(x, n)) == x
  {
    if x < 0 {
      BigEndianWraps(x, n);
      UnsignedOfBigEndian(x + Pow256(n), n);
    } else {
      UnsignedOfBigEndian(x, n);
    }
  }

  /** And the bytes of an integer read are the bytes it was read from. */
  lemma BigEndianOfSigned(s: seq<byte>)
    ensures BigEndian(Signed(s), |s|) == s && Fits(Signed(s), |s|)
  {
    UnsignedInRange(s);
    BigEndianOfUnsigned(s);
    SignedOrWrapped(s, |s|);
  }

  lemma SignedOrWrapped(s: seq<byte>, n: nat)
    requires n == |s|
    ensures BigEndian(Signed(s), n) == BigEndian(Unsigned(s), n)
  {
    BigEndianWraps(Unsigned(s) - Pow256(n), n);
    assert Unsigned(s) - Pow256(n) + Pow256(n) == Unsigned(s);
  }
}
