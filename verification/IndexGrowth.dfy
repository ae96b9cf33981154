/** The loops of the two `new_block_index` routines, in place on arrays: each goes once round
    the old circular index and stops on meeting a position again, not on a count. What they
    leave behind is what the queue models put into a new header. */
module IndexGrowth {
  import opened BlockIndex
  import E = ExplicitQueue
  import I = ImplicitQueue

  /** Position x round an array of `size`. */
  function Round(size: nat, x: int): int { SlotOf(0, size, x) }

  /** Going round, position p + n is met after exactly n steps, up to one whole round. */
  lemma MetAgain(size: nat, p: int, n: nat, j: nat)
    requires size > 0 && 0 < j <= n <= size
    ensures Round(size, p + j) == Round(size, p + n) <==> j == n
  {
    if j < n { SlotsDiffer(0, size, p + j, p + n); }
  }

  /** `ExplicitProducer::new_block_index`: the used entries, oldest first, to the front of the
      new array; the result is the new `pr_blockIndexFront`. */
  method CopyUsed<T>(entries: array<T>, front: nat, used: nat, newEntries: array<T>) returns (j: nat)
    requires entries.Length > 0 && front < entries.Length && used <= entries.Length
    requires newEntries.Length == 2 * entries.Length
    modifies newEntries
    ensures j == used
    ensures forall k :: 0 <= k < used ==> newEntries[k] == entries[Round(entries.Length, front - used + k)]
    ensures forall k :: used <= k < newEntries.Length ==> newEntries[k] == old(newEntries[k])
  {
    j := 0;
    if used != 0 {
      SlotIsRemainder(0, entries.Length, front - used);
      var i := (front - used) % entries.Length;
      var again := true;
      while again
        invariant 0 <= j <= used && i == Round(entries.Length, front - used + j)
        invariant if again then j < used else j == used
        invariant forall k :: 0 <= k < j ==> newEntries[k] == entries[Round(entries.Length, front - used + k)]
        invariant forall k :: j <= k < newEntries.Length ==> newEntries[k] == old(newEntries[k])
        decreases used - j, again
      {
        newEntries[j] := entries[i];
        NextSlot(0, entries.Length, front - used + j);
        j := j + 1;
        i := (i + 1) % entries.Length;
        MetAgain(entries.Length, front - used, used, j);
        again := i != front;
      }
    }
  }

  /** `ImplicitProducer::new_block_index`: all pointers of the old index, from the one behind
      its tail to its tail, and then pointers to the entries just allocated. The result is
      the slot the new tail starts from. */
  method CopyAround(index: array<nat>, tail: nat, firstNew: nat, newIndex: array<nat>) returns (newTail: nat)
    requires index.Length > 0 && tail < index.Length && newIndex.Length == 2 * index.Length
    modifies newIndex
    ensures forall i :: 0 <= i < index.Length ==> newIndex[i] == index[Round(index.Length, tail + 1 + i)]
    ensures forall i :: index.Length <= i < newIndex.Length ==> newIndex[i] == firstNew + (i - index.Length)
    ensures newTail == index.Length - 1 && newIndex[newTail] == index[tail]
  {
    var pos, i, again := tail, 0, true;
    while again
      invariant 0 <= i <= index.Length && pos == Round(index.Length, tail + i)
      invariant if again then i < index.Length else i == index.Length
      invariant forall k :: 0 <= k < i ==> newIndex[k] == index[Round(index.Length, tail + 1 + k)]
      decreases index.Length - i, again
    {
      NextSlot(0, index.Length, tail + i);
      pos := (pos + 1) % index.Length;
      newIndex[i] := index[pos];
      i := i + 1;
      MetAgain(index.Length, tail, index.Length, i);
      again := pos != tail;
    }
    var n := 0;
    while n != index.Length
      invariant 0 <= n <= index.Length
      invariant forall k :: 0 <= k < index.Length ==> newIndex[k] == index[Round(index.Length, tail + 1 + k)]
      invariant forall k :: index.Length <= k < index.Length + n ==> newIndex[k] == firstNew + (k - index.Length)
    {
      newIndex[index.Length + n] := firstNew + n;
      n := n + 1;
    }
    newTail := index.Length - 1;
    assert Round(index.Length, tail + 1 + newTail) == tail;
  }

  /** What `CopyUsed` leaves is what the explicit producer's model puts into its new header. */
  lemma CopyUsedMakesHeader(q: E.Queue, k: nat)
    requires q.headers != [] && k < q.slotsUsed <= q.indexSize
    ensures var hd, hd' := E.Current(q), E.Current(E.NewBlockIndex(q));
            var i := Round(q.indexSize, q.indexFront - q.slotsUsed + k);
            hd'.base[k] == E.BaseAt(hd, i) && hd'.block[k] == E.BlockAt(hd, i)
  {
    SlotIsRemainder(0, q.indexSize, q.indexFront - q.slotsUsed + k);
  }

  /** What `CopyAround` leaves is what the implicit producer's model puts into its new header. */
  lemma CopyAroundMakesHeader(q: I.Queue, garbage: I.Garbage, i: nat)
    requires q.headers != [] && i < 2 * I.Current(q.headers).size
    ensures var hd, hd' := I.Current(q.headers), I.Current(I.NewBlockIndex(q, garbage).headers);
            hd'.index[i] == if i < hd.size then I.RefAt(hd, Round(hd.size, hd.tail + 1 + i)) else |q.entries| + (i - hd.size)
  {
    var hd := I.Current(q.headers);
    if hd.size > 0 { SlotIsRemainder(0, hd.size, hd.tail + 1 + i); }
  }
}
