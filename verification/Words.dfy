/** 64-bit unsigned words (`index_t`, `size_t`): the value a counter shows is its true
    value modulo 2^64. */
module Words {
  const WORD_VALUES: int := 0x1_0000_0000_0000_0000
  const HALF: int := 0x8000_0000_0000_0000

  function Word(x: int): (w: int)
    ensures 0 <= w < WORD_VALUES
  {
    x % WORD_VALUES
  }

  /** `details::circular_less_than`. */
  predicate CircularLess(a: int, b: int) {
    Word(a - b) > HALF
  }

  /** The circular comparison of two words is the comparison of the true values exactly when
      the second is ahead by less than half the range, or not ahead by at most half of it. */
  lemma CircularLessIsLess(a: int, b: int)
    ensures -HALF <= b - a < HALF ==> (CircularLess(Word(a), Word(b)) <==> a < b)
    ensures CircularLess(Word(a), Word(b)) <==> 0 < Word(b - a) < HALF
  {
    WordOfDifference(a, b);
    WordOfNegation(b - a);
  }

  lemma WordOfDifference(a: int, b: int)
    ensures Word(Word(a) - Word(b)) == Word(a - b)
    ensures Word(Word(a) - b) == Word(a - b) && Word(a - Word(b)) == Word(a - b)
  {
    var p, q := a / WORD_VALUES, b / WORD_VALUES;
    assert a == p * WORD_VALUES + Word(a) && b == q * WORD_VALUES + Word(b);
    WordShift(a - b, q - p);
    WordShift(a - b, -p);
    WordShift(a - b, q);
  }

  lemma WordShift(x: int, k: int)
    ensures Word(x + k * WORD_VALUES) == Word(x)
  {
    var p := x / WORD_VALUES;
    assert x + k * WORD_VALUES == (p + k) * WORD_VALUES + Word(x);
  }

  lemma WordOfNegation(x: int)
    ensures Word(-x) == if Word(x) == 0 then 0 else WORD_VALUES - Word(x)
  {
    var p := x / WORD_VALUES;
    assert x == p * WORD_VALUES + Word(x);
    if Word(x) == 0 {
      assert -x == (-p) * WORD_VALUES;
    } else {
      assert -x == (-p - 1) * WORD_VALUES + (WORD_VALUES - Word(x));
    }
  }
}
