/** Finding the block of a claimed index: the circular block index of an explicit producer,
    with bases that are 64-bit words and slots that wrap at the capacity. */
module BlockIndex {
  import opened Arithmetic
  import opened Words

  const BLOCK_SIZE: nat := 32

  /** How many blocks an index word can tell apart: 2^64 / BLOCK_SIZE. */
  const PERIOD: int := 0x800_0000_0000_0000

  /** Capacities are the powers of two that divide the period. */
  predicate IsCapacity(size: int) { IsPowerOfTwo(size) && size <= PERIOD }

  lemma PeriodIsPowerOfTwo()
    ensures IsPowerOfTwo(PERIOD)
  {
    PowerTimes256(8);
    PowerTimes256(0x8_00);
    PowerTimes256(0x8_0000);
    PowerTimes256(0x8_00_0000);
    PowerTimes256(0x8_0000_0000);
    PowerTimes256(0x8_00_0000_0000);
    PowerTimes256(0x8_0000_0000_0000);
  }

  lemma CapacityDividesPeriod(size: int)
    ensures IsCapacity(size) <==> IsPowerOfTwo(size) && PERIOD % size == 0
  {
    PeriodIsPowerOfTwo();
    if IsCapacity(size) { PowersDivide(size, PERIOD); }
    if IsPowerOfTwo(size) && size > PERIOD { DivModUnique(PERIOD, size, 0, PERIOD); }
  }

  /** `index & ~(BLOCK_SIZE - 1)` on a word. */
  function BlockBase(w: int): int { w - w % BLOCK_SIZE }

  /** The slot both `dequeue`s compute. `BLOCK_SIZE` is unsigned, so the quotient is that of
      the unsigned difference even where the claimed block lies behind the front's. */
  function LookupSlot(index: int, headBase: int, front: int, size: int): (slot: int)
    requires size > 0
    ensures 0 <= slot < size
  {
    var offset := Word(BlockBase(index) - headBase) / BLOCK_SIZE;
    Word(front + offset) % size
  }

  /** The slot of block number p in an index whose slot 0 holds block number `start`: going
      round by whole capacities. */
  function SlotOf(start: int, size: int, p: int): (slot: int)
    ensures size > 0 ==> 0 <= slot < size
    decreases if p < start then start - p + size else if p >= start + size then p - start else 0
  {
    if size <= 0 then 0
    else if p < start then SlotOf(start, size, p + size)
    else if p >= start + size then SlotOf(start, size, p - size)
    else p - start
  }

  lemma {:induction false} SlotIsRemainder(start: int, size: int, p: int)
    requires size > 0
    ensures SlotOf(start, size, p) == (p - start) % size
    decreases if p < start then start - p + size else if p >= start + size then p - start else 0
  {
    if p < start {
      SlotIsRemainder(start, size, p + size);
      ModShift(p - start, 1, size);
    } else if p >= start + size {
      SlotIsRemainder(start, size, p - size);
      ModShift(p - size - start, 1, size);
    } else {
      DivModUnique(p - start, size, 0, p - start);
    }
  }

  /** Two block numbers less than a capacity apart have different slots. */
  lemma SlotsDiffer(start: int, size: int, p: int, q: int)
    requires size > 0 && p < q < p + size
    ensures SlotOf(start, size, p) != SlotOf(start, size, q)
  {
    SlotIsRemainder(start, size, p);
    SlotIsRemainder(start, size, q);
    RemaindersDiffer(p - start, q - start, size);
  }

  /** Going on by d slots round the circle is going on by d block numbers. */
  lemma SlotMoves(start: int, size: int, p: int, d: int)
    requires size > 0
    ensures (SlotOf(start, size, p) + d) % size == SlotOf(start, size, p + d)
  {
    SlotIsRemainder(start, size, p);
    SlotIsRemainder(start, size, p + d);
    ModOfModSum(p - start, d, size);
    assert p - start + d == p + d - start;
  }

  /** Slots follow each other round the circle. */
  lemma NextSlot(start: int, size: int, p: int)
    requires size > 0
    ensures (SlotOf(start, size, p) + 1) % size == SlotOf(start, size, p + 1)
  {
    SlotMoves(start, size, p, 1);
  }

  lemma OffsetOfWord(i: nat)
    ensures Word(i) % BLOCK_SIZE == i % BLOCK_SIZE
  {
    BlockBaseOfWord(i);
  }

  lemma BlockBaseOfWord(i: nat)
    ensures Word(i) % BLOCK_SIZE == i % BLOCK_SIZE
    ensures BlockBase(Word(i)) == Word(i / BLOCK_SIZE * BLOCK_SIZE)
  {
    var k, w := i / WORD_VALUES, Word(i);
    assert i == k * WORD_VALUES + w;
    assert i == (k * PERIOD + w / BLOCK_SIZE) * BLOCK_SIZE + w % BLOCK_SIZE;
    DivModUnique(i, BLOCK_SIZE, k * PERIOD + w / BLOCK_SIZE, w % BLOCK_SIZE);
    assert i / BLOCK_SIZE * BLOCK_SIZE == (w - w % BLOCK_SIZE) + k * WORD_VALUES;
    WordShift(w - w % BLOCK_SIZE, k);
    assert Word(w - w % BLOCK_SIZE) == w - w % BLOCK_SIZE;
  }

  lemma BlockOffset(p: int, q: int)
    ensures Word(Word(p * BLOCK_SIZE) - Word(q * BLOCK_SIZE)) / BLOCK_SIZE == (p - q) % PERIOD
  {
    WordOfDifference(p * BLOCK_SIZE, q * BLOCK_SIZE);
  }

  lemma ModThroughPeriod(x: int, d: int, size: int)
    requires IsCapacity(size)
    ensures (x + d % PERIOD) % size == (x + d) % size
  {
    CapacityDividesPeriod(size);
    var k := PERIOD / size;
    assert PERIOD == k * size;
    var m := d / PERIOD;
    assert d == m * PERIOD + d % PERIOD;
    assert m * PERIOD == m * (k * size) == (m * k) * size;
    ModShift(x + d % PERIOD, m * k, size);
  }

  /** The slot computed, with the block numbers' distance in place of the words'. */
  lemma LookupByDistance(i: nat, q: nat, f: int, size: int)
    requires IsCapacity(size) && 0 <= f < size
    ensures LookupSlot(Word(i), Word(q * BLOCK_SIZE), f, size) == (f + (i / BLOCK_SIZE - q) % PERIOD) % size
  {
    BlockBaseOfWord(i);
    BlockOffset(i / BLOCK_SIZE, q);
    SmallWord(f + (i / BLOCK_SIZE - q) % PERIOD);
  }

  lemma SmallWord(x: int)
    requires 0 <= x < 2 * PERIOD
    ensures Word(x) == x
  {
  }

  /** Lookup is right modulo 2^64: from the front entry, which holds block number q, the slot
      computed for any index of block number p is the slot of p, wherever p lies from q and
      wherever the words have wrapped. */
  lemma LookupFindsSlot(i: nat, q: nat, start: int, size: int)
    requires IsCapacity(size)
    ensures LookupSlot(Word(i), Word(q * BLOCK_SIZE), SlotOf(start, size, q), size)
            == SlotOf(start, size, i / BLOCK_SIZE)
  {
    var d := i / BLOCK_SIZE - q;
    LookupByDistance(i, q, SlotOf(start, size, q), size);
    ModThroughPeriod(SlotOf(start, size, q), d, size);
    SlotMoves(start, size, q, d);
  }

  /** The slot looked up for index i, from the entry of block number q, is that of i's block. */
  predicate LookupIsRight(i: nat, q: nat, start: int, size: int)
    requires size > 0
  {
    LookupSlot(Word(i), Word(q * BLOCK_SIZE), SlotOf(start, size, q), size) == SlotOf(start, size, i / BLOCK_SIZE)
  }

  lemma LargeIndexMisleads(size: int)
    requires size > PERIOD
    ensures !LookupIsRight(0, 1, 0, size)
  {
    assert SlotOf(0, size, 1) == 1 && SlotOf(0, size, 0) == 0;
    assert Word(BlockBase(Word(0)) - Word(1 * BLOCK_SIZE)) / BLOCK_SIZE == PERIOD - 1;
    assert Word(1 + (PERIOD - 1)) == PERIOD;
    DivModUnique(PERIOD, size, 0, PERIOD);
  }

  /** The capacities for which lookup is right: among the powers of two just those that divide
      the period. With a larger one, block 0 is not found from the entry of block 1. */
  lemma LookupNeedsCapacity(size: int)
    requires IsPowerOfTwo(size)
    ensures (forall i: nat, q: nat, start: int :: LookupIsRight(i, q, start, size)) <==> PERIOD % size == 0
  {
    CapacityDividesPeriod(size);
    if size <= PERIOD {
      forall i: nat, q: nat, start: int ensures LookupIsRight(i, q, start, size) {
        LookupFindsSlot(i, q, start, size);
      }
    } else {
      LargeIndexMisleads(size);
    }
  }

  /** The signed value of a word. */
  function SignedWord(w: int): int { if w < HALF then w else w - WORD_VALUES }

  /** The slot as the comment in the source explains it, with a signed quotient. */
  function SignedLookupSlot(index: int, headBase: int, front: int, size: int): int
    requires size > 0
  {
    var offset := Word(Quotient(SignedWord(Word(BlockBase(index) - headBase)), BLOCK_SIZE));
    Word(front + offset) % size
  }

  lemma WordThroughCapacity(x: int, size: int)
    requires IsCapacity(size)
    ensures Word(x) % size == x % size
  {
    CapacityDividesPeriod(size);
    var k, m := PERIOD / size, x / WORD_VALUES;
    assert PERIOD == k * size;
    assert x == Word(x) + m * (BLOCK_SIZE * PERIOD);
    assert m * (BLOCK_SIZE * (k * size)) == (m * BLOCK_SIZE * k) * size;
    ModShift(Word(x), m * BLOCK_SIZE * k, size);
  }

  /** The signed quotient is exact, and differs from the unsigned one by the period or not. */
  lemma SignedQuotient(u: int)
    requires 0 <= u < PERIOD
    ensures var q := Quotient(SignedWord(u * BLOCK_SIZE), BLOCK_SIZE); q == u || q == u - PERIOD
  {
    if u * BLOCK_SIZE >= HALF {
      assert SignedWord(u * BLOCK_SIZE) == -((PERIOD - u) * BLOCK_SIZE);
    }
  }

  /** A quotient off by the period leads to the same slot. */
  lemma SlotThroughWord(front: int, o: int, u: int, size: int)
    requires IsCapacity(size) && 0 <= u < PERIOD && (o == u || o == u - PERIOD)
    ensures Word(front + Word(o)) % size == (front + u) % size
  {
    WordOfSum(front, o);
    WordThroughCapacity(front + o, size);
    if o == u - PERIOD {
      DivModUnique(o, PERIOD, -1, u);
      ModThroughPeriod(front, o, size);
    }
  }

  lemma SignedByDistance(i: nat, q: nat, front: int, size: int)
    requires size > 0
    ensures var u := (i / BLOCK_SIZE - q) % PERIOD;
            SignedLookupSlot(Word(i), Word(q * BLOCK_SIZE), front, size)
            == Word(front + Word(Quotient(SignedWord(u * BLOCK_SIZE), BLOCK_SIZE))) % size
  {
    BlockBaseOfWord(i);
    DifferenceOfBases(i / BLOCK_SIZE, q);
  }

  /** The signed quotient of the comment and the unsigned one of the code find the same slot. */
  lemma SignedLookupAgrees(i: nat, q: nat, front: int, size: int)
    requires IsCapacity(size) && 0 <= front < size
    ensures SignedLookupSlot(Word(i), Word(q * BLOCK_SIZE), front, size) == LookupSlot(Word(i), Word(q * BLOCK_SIZE), front, size)
  {
    var u := (i / BLOCK_SIZE - q) % PERIOD;
    SignedByDistance(i, q, front, size);
    LookupByDistance(i, q, front, size);
    SignedQuotient(u);
    SlotThroughWord(front, Quotient(SignedWord(u * BLOCK_SIZE), BLOCK_SIZE), u, size);
  }

  lemma WordOfSum(a: int, b: int)
    ensures Word(a + Word(b)) == Word(a + b)
  {
    WordShift(a + Word(b), b / WORD_VALUES);
    assert a + Word(b) + b / WORD_VALUES * WORD_VALUES == a + b;
  }

  /** Bases differ by whole blocks. */
  lemma DifferenceOfBases(p: int, q: int)
    ensures Word(Word(p * BLOCK_SIZE) - Word(q * BLOCK_SIZE)) == (p - q) % PERIOD * BLOCK_SIZE
  {
    WordOfDifference(p * BLOCK_SIZE, q * BLOCK_SIZE);
  }

  /** Where a bulk dequeue that is to end at `end` stops in the block of `index`. */
  function Stop(index: nat, end: nat): nat {
    var blockEnd := index - index % BLOCK_SIZE + BLOCK_SIZE;
    if CircularLess(Word(end), Word(blockEnd)) then end else blockEnd
  }

  lemma StopIsBlockEndOrEnd(index: nat, end: nat)
    requires index < end < index + HALF
    ensures var blockEnd := (index / BLOCK_SIZE + 1) * BLOCK_SIZE;
            Stop(index, end) == if end < blockEnd then end else blockEnd
  {
    CircularLessIsLess(end, index - index % BLOCK_SIZE + BLOCK_SIZE);
  }
}
