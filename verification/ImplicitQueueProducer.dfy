/** Every step of the producer keeps the invariant of the implicit producer's queue. */
module ImplicitQueueProducer {
  import opened Arithmetic
  import opened Collections
  import opened Words
  import opened BlockIndex
  import opened ImplicitQueue
  import opened ImplicitQueueInvariant
  import C = ImplicitQueueConsumers
  import Claims

  // ---------------------------------------------------------------------------
  // Frames
  // ---------------------------------------------------------------------------

  /** The readers' places when headers, blocks and fates only grow, and no header stops
      covering a block that is not dead. */
  ghost predicate HeadersGrow(headers: seq<Header>, headers': seq<Header>, fates: seq<Fate>) {
    && |headers| <= |headers'|
    && (forall h :: 0 <= h < |headers| ==>
          && headers'[h].start == headers[h].start && headers'[h].size == headers[h].size
          && headers'[h].top >= headers[h].top
          && (forall p: nat :: headers[h].lo <= p < |fates| && !Dead(fates[p]) ==> headers'[h].lo <= p))
  }

  /** The lowest block number a reader still looks up. */
  function Lowest(r: Reader): nat { if r.ReturnBlock? then r.stop / BLOCK_SIZE else Start(r) / BLOCK_SIZE }

  predicate Looks(r: Reader) { !r.Resting? && !r.LoadIndex? && (r.ReturnBlock? ==> r.stop < r.end) }

  lemma LowestNotDead(q: Queue, t: Thread)
    requires Inv(q) && Looks(ReaderOf(q, t))
    ensures Lowest(ReaderOf(q, t)) < |q.fates| && !Dead(q.fates[Lowest(ReaderOf(q, t))])
  {
    var r := ReaderOf(q, t);
    C.ReaderFacts(q, t);
    if r.ReturnBlock? {
      C.UnmarkedIsOpen(q, t, r.stop);
    } else if !r.NullEntry? {
      C.UnmarkedIsOpen(q, t, Start(r));
    }
  }

  lemma PlaceKept(headers: seq<Header>, headers': seq<Header>, blockOf: seq<Block>, blockOf': seq<Block>, fates: seq<Fate>, r: Reader)
    requires PlaceInv(headers, blockOf, r) && HeadersGrow(headers, headers', fates) && blockOf <= blockOf'
    requires Looks(r) ==> Lowest(r) < |fates| && !Dead(fates[Lowest(r)])
    ensures PlaceInv(headers', blockOf', r)
  {
  }

  lemma ReadersKept(q: Queue, q': Queue)
    requires Inv(q) && HeadersGrow(q.headers, q'.headers, q.fates) && q.blockOf <= q'.blockOf && q.fates <= q'.fates
    requires q'.claims.head == q.claims.head && q'.claims.pc == q.claims.pc && q'.owner == q.owner && q'.readers == q.readers
    ensures ReadersInv(q')
  {
    forall t: Thread
      ensures ReaderInv(q'.headers, q'.blockOf, q'.fates, q'.claims.head, q'.owner, ReaderOf(q', t), t, Claims.PcOf(q'.claims, t))
    {
      C.ReaderFacts(q, t);
      if Looks(ReaderOf(q, t)) { LowestNotDead(q, t); }
      PlaceKept(q.headers, q'.headers, q.blockOf, q'.blockOf, q.fates, ReaderOf(q, t));
    }
  }

  lemma SameSets(q: Queue, q': Queue)
    requires q'.claims.head == q.claims.head && q'.owner == q.owner && q'.readers == q.readers
    ensures Finished(q') == Finished(q)
    ensures q'.items == q.items ==> Waiting(q') == Waiting(q)
    ensures |q'.items| == |q.items| + 1 && q.claims.head <= |q.items| ==> Waiting(q') == Waiting(q) + {|q.items|}
  {
    forall i: nat ensures OwnerOf(q', i) == OwnerOf(q, i) && ReaderOf(q', OwnerOf(q, i)) == ReaderOf(q, OwnerOf(q, i)) { }
    if |q'.items| == |q.items| + 1 && q.claims.head <= |q.items| {
      forall i: nat ensures i in Waiting(q') <==> i in Waiting(q) + {|q.items|} { }
    }
  }

  /** A step that changes none of the invariant but the producer's part. */
  lemma MoveStep(q: Queue, p: Producer)
    requires Inv(q) && ProducerInv(Move(q, p))
    ensures Inv(Move(q, p))
  {
    var q' := Move(q, p);
    SameSets(q, q');
    ReadersKept(q, q');
  }

  /** A step that changes entries, headers and entry numbers at most. */
  lemma IndexStep(q: Queue, q': Queue)
    requires Inv(q) && HeadersGrow(q.headers, q'.headers, q.fates)
    requires q' == q.(entries := q'.entries, headers := q'.headers, entryOf := q'.entryOf, producer := q'.producer)
    requires IndexInv(q'.entries, q'.headers, q'.entryOf, q'.blockOf, q'.fates) && ProducerInv(q')
    ensures Inv(q')
  {
    SameSets(q, q');
    ReadersKept(q, q');
  }

  // ---------------------------------------------------------------------------
  // Finding an entry
  // ---------------------------------------------------------------------------

  lemma TailOffset(tail: nat, n: nat)
    requires tail <= n * BLOCK_SIZE < tail + BLOCK_SIZE
    ensures Word(tail) % BLOCK_SIZE == 0 <==> tail == n * BLOCK_SIZE
    ensures Word(tail) % BLOCK_SIZE != 0 ==> n * BLOCK_SIZE - BLOCK_SIZE <= tail < n * BLOCK_SIZE
  {
    OffsetOfWord(tail);
  }

  lemma EnqueuePlace(q: Queue, item: Item)
    requires ProducerInv(q) && q.producer.Ready?
    ensures ProducerInv(DoEnqueue(q, item))
  {
    TailOffset(q.claims.tail, |q.blockOf|);
  }

  lemma EnqueueStep(q: Queue, item: Item)
    requires Inv(q) && q.producer.Ready?
    ensures Inv(DoEnqueue(q, item))
  {
    EnqueuePlace(q, item);
    MoveStep(q, DoEnqueue(q, item).producer);
  }

  lemma LoadHeadStep(q: Queue, p: Producer)
    requires Inv(q) && q.producer.LoadHead? && (p == CheckEntry(q.producer.item) || p == Ready)
    ensures Inv(Move(q, p))
  {
    MoveStep(q, p);
  }

  /** The slot behind the tail is that of the next block number. */
  lemma NewTailSlot(q: Queue)
    requires Inv(q) && q.headers != [] && Current(q.headers).at == |q.blockOf| - 1
    ensures var hd := Current(q.headers);
            && hd.size > 0 && |hd.index| == hd.size
            && NewTail(q) == SlotOf(hd.start, hd.size, |q.blockOf|) && NewRef(q) == hd.index[NewTail(q)]
  {
    hide ProducerInv, ReadersInv, BlocksInv, FatesInv, FateOwners, CellInv, DeliveryInv;
    var hd := Current(q.headers);
    assert HeaderInv(hd, q.entryOf);
    NextSlot(hd.start, hd.size, |q.blockOf| - 1);
  }

  lemma BaseIsValid(p: nat)
    ensures Word(p * BLOCK_SIZE) != INVALID_BLOCK_BASE
  {
    OffsetOfWord(p * BLOCK_SIZE);
  }

  lemma SlotAfterRound(start: int, size: int, n: int)
    requires size > 0 && n >= start + size
    ensures SlotOf(start, size, n) == SlotOf(start, size, n - size)
  {
  }

  /** The entry behind the tail: blank, the one keyed before, or the one a capacity back. */
  lemma NextEntry(q: Queue)
    requires Inv(q) && q.headers != [] && Current(q.headers).at == |q.blockOf| - 1
    ensures var n, hd := |q.blockOf|, Current(q.headers);
            && (|q.entryOf| == n + 1 ==> NewRef(q) == q.entryOf[n])
            && (|q.entryOf| == n && n < hd.start + hd.size ==> EntryAt(q.entries, NewRef(q)).key == INVALID_BLOCK_BASE)
            && (|q.entryOf| == n && n >= hd.start + hd.size ==>
                  NewRef(q) == q.entryOf[n - hd.size] && n - hd.size == hd.lo
                  && EntryInv(q.entries, NewRef(q), n - hd.size, q.blockOf, q.fates))
  {
    NewTailSlot(q);
    var n, hd := |q.blockOf|, Current(q.headers);
    assert HeaderInv(hd, q.entryOf);
    if |q.entryOf| == n && n >= hd.start + hd.size { SlotAfterRound(hd.start, hd.size, n); }
  }

  /** A valid entry without a block is that of a dead block. */
  lemma NullIsDead(q: Queue, p: nat, r: Ref)
    requires BlocksInv(q.counts, q.cells, q.blockOf, q.fates, Finished(q)) && EntryInv(q.entries, r, p, q.blockOf, q.fates)
    requires p < |q.blockOf|
    ensures EntryAt(q.entries, r).key != INVALID_BLOCK_BASE
    ensures EntryAt(q.entries, r).value == NULL ==> Dead(q.fates[p])
  {
    BaseIsValid(p);
    assert !q.fates[p].Returned? ==> BlockShape(q.counts, q.cells, q.blockOf[p]);
  }

  /** The entry is taken to be free exactly when it may be. */
  lemma CheckedEntry(q: Queue)
    requires Inv(q) && q.producer.CheckEntry? && q.headers != []
    ensures AfterCheck(q, q.producer.item).StoreKey? ==> NextIsFree(Current(q.headers), q.blockOf, q.fates)
    ensures AfterCheck(q, q.producer.item).GrowIndex? ==>
              |q.entryOf| == |q.blockOf| && Current(q.headers).start + Current(q.headers).size <= |q.blockOf|
  {
    if |q.entryOf| == |q.blockOf| + 1 {
      NextEntry(q);
      RetryIsFree(q);
    } else {
      FirstTryIsFree(q);
    }
  }

  lemma FirstTryIsFree(q: Queue)
    requires Inv(q) && q.producer.CheckEntry? && q.headers != [] && |q.entryOf| == |q.blockOf|
    ensures AfterCheck(q, q.producer.item).StoreKey? ==> NextIsFree(Current(q.headers), q.blockOf, q.fates)
    ensures AfterCheck(q, q.producer.item).GrowIndex? ==> Current(q.headers).start + Current(q.headers).size <= |q.blockOf|
  {
    NextEntry(q);
    if |q.blockOf| >= Current(q.headers).start + Current(q.headers).size { LappedEntry(q); }
  }

  lemma LappedEntry(q: Queue)
    requires Inv(q) && q.producer.CheckEntry? && q.headers != [] && |q.entryOf| == |q.blockOf|
    requires |q.blockOf| >= Current(q.headers).start + Current(q.headers).size
    ensures var p := |q.blockOf| - Current(q.headers).size;
            && 0 <= p < |q.fates| && EntryAt(q.entries, NewRef(q)).key != INVALID_BLOCK_BASE
            && (EntryAt(q.entries, NewRef(q)).value == NULL ==> Dead(q.fates[p]))
  {
    NextEntry(q);
    assert Current(q.headers).size > 0 by { NewTailSlot(q); }
    NullIsDead(q, |q.blockOf| - Current(q.headers).size, NewRef(q));
  }

  lemma RetryIsFree(q: Queue)
    requires IndexInv(q.entries, q.headers, q.entryOf, q.blockOf, q.fates) && q.headers != [] && |q.entryOf| == |q.blockOf| + 1
    ensures NextIsFree(Current(q.headers), q.blockOf, q.fates)
  {
  }

  lemma CheckEntryStep(q: Queue)
    requires Inv(q) && q.producer.CheckEntry?
    ensures Inv(Move(q, AfterCheck(q, q.producer.item)))
  {
    var p := AfterCheck(q, q.producer.item);
    if q.headers != [] { CheckedEntry(q); }
    CheckedStage(q, p);
    MoveStep(q, p);
  }

  lemma CheckedStage(q: Queue, p: Producer)
    requires ProducerInv(q) && q.producer.CheckEntry? && p == AfterCheck(q, q.producer.item)
    requires p.StoreKey? ==> NextIsFree(Current(q.headers), q.blockOf, q.fates)
    requires p.GrowIndex? ==> |q.entryOf| == |q.blockOf| && Current(q.headers).start + Current(q.headers).size <= |q.blockOf|
    ensures ProducerInv(Move(q, p))
  {
  }

  // ---------------------------------------------------------------------------
  // Growing the index
  // ---------------------------------------------------------------------------

  /** What an index finds for block number p. */
  function OldRef(hd: Header, p: int): Ref { RefAt(hd, SlotOf(hd.start, hd.size, p)) }

  /** The header after growth: every old slot's entry, in block order, then the new ones. */
  ghost predicate Grown(hd: Header, hd': Header, entries: seq<Entry>, entries': seq<Entry>, n: nat) {
    && hd'.size == 2 * hd.size && |hd'.index| == hd'.size && |entries'| == |entries| + hd.size && entries <= entries'
    && hd'.start == hd'.lo == n - hd.size && hd'.top == hd'.at == n - 1 && hd'.tail == hd.size - 1
    && (forall i: nat :: i < hd.size ==> hd'.index[i] == OldRef(hd, n - hd.size + i))
    && (forall i: nat :: hd.size <= i < hd'.size ==> hd'.index[i] == |entries| + (i - hd.size))
    && (forall r: nat :: |entries| <= r < |entries'| ==> entries'[r].key == INVALID_BLOCK_BASE)
  }

  lemma SameSlotAround(start: int, size: int, p: int)
    requires size > 0
    ensures SlotOf(start, size, p + size) == SlotOf(start, size, p)
  {
    SlotIsRemainder(start, size, p);
    SlotIsRemainder(start, size, p + size);
    ModShift(p - start, 1, size);
  }

  lemma CopyFromTail(start: int, size: nat, n: int, i: nat)
    requires size > 0
    ensures (SlotOf(start, size, n - 1) + 1 + i) % size == SlotOf(start, size, n - size + i)
  {
    SlotMoves(start, size, n - 1, 1 + i);
    SameSlotAround(start, size, n - size + i);
  }

  /** The header `new_block_index` makes of a full one. */
  function GrownFrom(hd: Header, unused: nat, n: nat): Header
    requires n >= hd.size
  {
    Header(2 * hd.size, Mod(hd.size - 1, 2 * hd.size), seq(2 * hd.size, i requires i >= 0 => GrownSlot(hd, unused, i)),
           n - hd.size, n - hd.size, n - 1, n - 1)
  }

  lemma GrownFromFull(hd: Header, entries: seq<Entry>, entries': seq<Entry>, n: nat)
    requires hd.size > 0 && n >= hd.size && hd.tail == SlotOf(hd.start, hd.size, n - 1)
    requires |entries'| == |entries| + hd.size && entries <= entries'
    requires forall r: nat :: |entries| <= r < |entries'| ==> entries'[r].key == INVALID_BLOCK_BASE
    ensures Grown(hd, GrownFrom(hd, |entries|, n), entries, entries', n)
  {
    var hd' := GrownFrom(hd, |entries|, n);
    forall i: nat | i < hd.size ensures hd'.index[i] == OldRef(hd, n - hd.size + i) {
      CopyFromTail(hd.start, hd.size, n, i);
    }
    DivModUnique(hd.size - 1, 2 * hd.size, 0, hd.size - 1);
  }

  lemma NewBlockIndexGrows(q: Queue, garbage: Garbage)
    requires q.headers != [] && Current(q.headers).size > 0 && |q.blockOf| >= Current(q.headers).size
    requires var hd := Current(q.headers); hd.tail == SlotOf(hd.start, hd.size, |q.blockOf| - 1)
    ensures var q' := NewBlockIndex(q, garbage);
            && q'.headers == q.headers + [Current(q'.headers)]
            && q' == q.(entries := q'.entries, headers := q'.headers)
            && Grown(Current(q.headers), Current(q'.headers), q.entries, q'.entries, |q.blockOf|)
  {
    var hd, q' := Current(q.headers), NewBlockIndex(q, garbage);
    assert Current(q'.headers) == GrownFrom(hd, |q.entries|, |q.blockOf|);
    GrownFromFull(hd, q.entries, q'.entries, |q.blockOf|);
  }

  /** Within a capacity of `start` slots are plain distances. */
  lemma SlotNear(start: int, size: nat, p: int)
    requires start <= p < start + size
    ensures SlotOf(start, size, p) == p - start
  {
  }

  lemma GrownSlotIs(hd: Header, hd': Header, p: nat, n: nat, r: Ref)
    requires hd'.start == n - hd.size && hd'.start <= p < n && hd'.size == 2 * hd.size == |hd'.index|
    requires hd'.index[p - hd'.start] == OldRef(hd, p) && OldRef(hd, p) == r
    ensures hd'.index[SlotOf(hd'.start, hd'.size, p)] == r
  {
    SlotNear(hd'.start, hd'.size, p);
  }

  lemma GrownHeader(hd: Header, hd': Header, entries: seq<Entry>, entries': seq<Entry>, n: nat, entryOf: seq<Ref>)
    requires HeaderInv(hd, entryOf) && Grown(hd, hd', entries, entries', n) && |entryOf| == n && hd.top == n - 1
    requires hd.lo == n - hd.size && IsCapacity(hd'.size) && IsCapacity(2 * hd'.size)
    ensures HeaderInv(hd', entryOf)
  {
    SlotNear(hd'.start, hd'.size, n - 1);
    forall p: nat | hd'.lo <= p <= hd'.top ensures hd'.index[SlotOf(hd'.start, hd'.size, p)] == entryOf[p] {
      assert hd'.index[p - hd'.start] == OldRef(hd, n - hd.size + (p - hd'.start));
      GrownSlotIs(hd, hd', p, n, entryOf[p]);
    }
  }

  lemma GrownCapacity(size: int)
    requires IsCapacity(4 * size) && size > 0
    ensures IsCapacity(2 * size) && IsCapacity(2 * (2 * size))
  {
  }

  lemma GrownRefsDiffer(hd: Header, hd': Header, entries: seq<Entry>, entries': seq<Entry>, n: nat, a: nat, b: nat)
    requires hd.size > 0 && |hd.index| == hd.size && IndexRefs(hd, entries, n) && Grown(hd, hd', entries, entries', n)
    requires a < b < hd'.size
    ensures hd'.index[a] != hd'.index[b]
  {
    if b < hd.size {
      SlotsDiffer(hd.start, hd.size, n - hd.size + a, n - hd.size + b);
      var x, y := SlotOf(hd.start, hd.size, n - hd.size + a), SlotOf(hd.start, hd.size, n - hd.size + b);
      assert if x < y then hd.index[x] != hd.index[y] else hd.index[y] != hd.index[x];
    }
  }

  lemma GrownRefs(hd: Header, hd': Header, entries: seq<Entry>, entries': seq<Entry>, n: nat)
    requires hd.size > 0 && |hd.index| == hd.size && IndexRefs(hd, entries, n) && Grown(hd, hd', entries, entries', n)
    ensures IndexRefs(hd', entries', n)
  {
    forall a, b | 0 <= a < b < hd'.size ensures hd'.index[a] != hd'.index[b] {
      GrownRefsDiffer(hd, hd', entries, entries', n, a, b);
    }
    forall p: nat | n <= p < hd'.start + hd'.size
      ensures EntryAt(entries', hd'.index[SlotOf(hd'.start, hd'.size, p)]).key == INVALID_BLOCK_BASE
    {
      SlotNear(hd'.start, hd'.size, p);
    }
  }

  lemma HeadersAppend(headers: seq<Header>, hd': Header, entryOf: seq<Ref>)
    requires HeadersInv(headers, entryOf) && HeaderInv(hd', entryOf)
    requires headers != [] ==> Current(headers).at == Current(headers).top
    ensures HeadersInv(headers + [hd'], entryOf)
  {
    var headers' := headers + [hd'];
    forall h | 0 <= h < |headers'| ensures HeaderInv(headers'[h], entryOf) {
      assert h < |headers| ==> HeaderInv(headers[h], entryOf);
    }
    forall h | 0 <= h < |headers'| - 1 ensures headers'[h].at == headers'[h].top {
      assert h < |headers| - 1 ==> headers[h].at == headers[h].top;
    }
  }

  lemma EntriesExtend(entries: seq<Entry>, entries': seq<Entry>, entryOf: seq<Ref>, lo: nat, blockOf: seq<Block>, fates: seq<Fate>)
    requires EntriesInv(entries, entryOf, lo, blockOf, fates) && entries <= entries'
    ensures EntriesInv(entries', entryOf, lo, blockOf, fates)
  {
    forall p: nat | lo <= p < |entryOf| ensures EntryInv(entries', entryOf[p], p, blockOf, fates) {
      assert EntryInv(entries, entryOf[p], p, blockOf, fates);
    }
  }

  lemma GrownIndex(entries: seq<Entry>, entries': seq<Entry>, headers: seq<Header>, hd': Header, entryOf: seq<Ref>,
                   blockOf: seq<Block>, fates: seq<Fate>)
    requires IndexInv(entries, headers, entryOf, blockOf, fates) && headers != [] && |entryOf| == |blockOf|
    requires var hd := Current(headers);
             && IsCapacity(4 * hd.size) && hd.start + hd.size <= |blockOf| && hd.at == |blockOf| - 1
             && Grown(hd, hd', entries, entries', |blockOf|)
    ensures IndexInv(entries', headers + [hd'], entryOf, blockOf, fates)
  {
    var hd, n := Current(headers), |blockOf|;
    assert HeaderInv(hd, entryOf);
    GrownCapacity(hd.size);
    GrownHeader(hd, hd', entries, entries', n, entryOf);
    GrownRefs(hd, hd', entries, entries', n);
    HeadersAppend(headers, hd', entryOf);
    EntriesExtend(entries, entries', entryOf, hd.lo, blockOf, fates);
  }

  lemma GrownStage(q: Queue, q': Queue, item: Item)
    requires ProducerInv(q) && q.producer.GrowIndex? && |q.fates| == |q.blockOf| && |q'.headers| > 0
    requires q' == q.(entries := q'.entries, headers := q'.headers, producer := StoreKey(item))
    requires Current(q'.headers).start == |q.blockOf| - Current(q.headers).size && Current(q'.headers).at == |q.blockOf| - 1
    requires Current(q'.headers).size == 2 * Current(q.headers).size > 0
    ensures ProducerInv(q')
  {
  }

  lemma GrowStep(q: Queue, garbage: Garbage)
    requires Inv(q) && q.producer.GrowIndex? && IsCapacity(4 * Current(q.headers).size)
    ensures Inv(Move(NewBlockIndex(q, garbage), StoreKey(q.producer.item)))
  {
    var hd, q0 := Current(q.headers), NewBlockIndex(q, garbage);
    assert HeaderInv(hd, q.entryOf);
    NewBlockIndexGrows(q, garbage);
    GrowKeeps(q, Move(q0, StoreKey(q.producer.item)), Current(q0.headers), q.producer.item);
  }

  lemma MoreHeaders(headers: seq<Header>, hd': Header, fates: seq<Fate>)
    ensures HeadersGrow(headers, headers + [hd'], fates)
  {
  }

  lemma GrownParts(q: Queue, q': Queue, hd': Header, item: Item)
    requires Inv(q) && q.producer.GrowIndex? && IsCapacity(4 * Current(q.headers).size)
    requires q' == q.(entries := q'.entries, headers := q.headers + [hd'], producer := StoreKey(item))
    requires Grown(Current(q.headers), hd', q.entries, q'.entries, |q.blockOf|)
    ensures IndexInv(q'.entries, q'.headers, q'.entryOf, q'.blockOf, q'.fates) && ProducerInv(q')
  {
    C.HeaderFacts(q, |q.headers| - 1);
    assert Current(q'.headers) == hd';
    GrownIndex(q.entries, q'.entries, q.headers, hd', q.entryOf, q.blockOf, q.fates);
    GrownStage(q, q', item);
  }

  lemma GrowKeeps(q: Queue, q': Queue, hd': Header, item: Item)
    requires Inv(q) && q.producer.GrowIndex? && IsCapacity(4 * Current(q.headers).size)
    requires q' == q.(entries := q'.entries, headers := q.headers + [hd'], producer := StoreKey(item))
    requires Grown(Current(q.headers), hd', q.entries, q'.entries, |q.blockOf|)
    ensures Inv(q')
  {
    GrownParts(q, q', hd', item);
    MoreHeaders(q.headers, hd', q.fates);
    IndexStep(q, q');
  }

  // ---------------------------------------------------------------------------
  // Keying the entry
  // ---------------------------------------------------------------------------

  /** The slot of the next block number is none of those of the window or of the blanks. */
  lemma NextRefDiffers(hd: Header, entries: seq<Entry>, keyed: nat, n: nat, p: nat)
    requires hd.size > 0 && |hd.index| == hd.size && IndexRefs(hd, entries, keyed)
    requires p != n && n < p + hd.size && p < n + hd.size
    ensures hd.index[SlotOf(hd.start, hd.size, p)] != hd.index[SlotOf(hd.start, hd.size, n)]
  {
    if p < n { SlotsDiffer(hd.start, hd.size, p, n); } else { SlotsDiffer(hd.start, hd.size, n, p); }
    var a, b := SlotOf(hd.start, hd.size, p), SlotOf(hd.start, hd.size, n);
    assert if a < b then hd.index[a] != hd.index[b] else hd.index[b] != hd.index[a];
  }

  /** The current header once block number n is keyed. */
  function Keyed(hd: Header, n: nat): Header { hd.(lo := Max(hd.lo, n + 1 - hd.size), top := n) }

  lemma KeyedHeader(hd: Header, n: nat, entryOf: seq<Ref>, entryOf': seq<Ref>)
    requires HeaderInv(hd, entryOf) && n <= |entryOf| <= n + 1 && hd.top == |entryOf| - 1 && hd.lo == Max(hd.start, |entryOf| - hd.size)
    requires hd.at == n - 1 && hd.start <= n
    requires |entryOf'| == n + 1 && entryOf'[..n] == entryOf[..n] && entryOf'[n] == hd.index[SlotOf(hd.start, hd.size, n)]
    ensures HeaderInv(Keyed(hd, n), entryOf')
  {
    var hd' := Keyed(hd, n);
    forall p: nat | hd'.lo <= p <= hd'.top ensures hd'.index[SlotOf(hd'.start, hd'.size, p)] == entryOf'[p] {
      if p < n { assert entryOf'[..n][p] == entryOf[..n][p]; }
    }
  }

  lemma OldHeadersKeyed(headers: seq<Header>, hd': Header, entryOf: seq<Ref>, entryOf': seq<Ref>)
    requires HeadersInv(headers, entryOf) && headers != [] && entryOf <= entryOf' && HeaderInv(hd', entryOf')
    ensures HeadersInv(WithCurrent(headers, hd'), entryOf')
  {
    var headers' := WithCurrent(headers, hd');
    forall h | 0 <= h < |headers'| ensures HeaderInv(headers'[h], entryOf') {
      if h < |headers| - 1 { assert HeaderInv(headers[h], entryOf) && headers'[h] == headers[h]; }
    }
  }

  lemma KeyedRefs(hd: Header, entries: seq<Entry>, keyed: nat, n: nat, key: int)
    requires hd.size > 0 && |hd.index| == hd.size && IndexRefs(hd, entries, keyed) && n <= keyed <= n + 1 && hd.start <= n
    ensures IndexRefs(Keyed(hd, n), WithKey(entries, hd.index[SlotOf(hd.start, hd.size, n)], key), n + 1)
  {
    var r := hd.index[SlotOf(hd.start, hd.size, n)];
    forall p: nat | n + 1 <= p < hd.start + hd.size
      ensures EntryAt(WithKey(entries, r, key), hd.index[SlotOf(hd.start, hd.size, p)]).key == INVALID_BLOCK_BASE
    {
      NextRefDiffers(hd, entries, keyed, n, p);
      assert EntryAt(entries, hd.index[SlotOf(hd.start, hd.size, p)]).key == INVALID_BLOCK_BASE;
    }
  }

  lemma KeyedEntries(hd: Header, entries: seq<Entry>, entryOf: seq<Ref>, entryOf': seq<Ref>, n: nat, blockOf: seq<Block>, fates: seq<Fate>)
    requires HeaderInv(hd, entryOf) && hd.top == |entryOf| - 1 && IndexRefs(hd, entries, |entryOf|)
    requires EntriesInv(entries, entryOf, hd.lo, blockOf, fates) && n <= |entryOf| <= n + 1 && |blockOf| == n && hd.start <= n
    requires |entryOf'| == n + 1 && entryOf'[..n] == entryOf[..n] && entryOf'[n] == hd.index[SlotOf(hd.start, hd.size, n)]
    ensures EntriesInv(WithKey(entries, entryOf'[n], Word(n * BLOCK_SIZE)), entryOf', Keyed(hd, n).lo, blockOf, fates)
  {
    var entries' := WithKey(entries, entryOf'[n], Word(n * BLOCK_SIZE));
    forall p: nat | Keyed(hd, n).lo <= p < n + 1 ensures EntryInv(entries', entryOf'[p], p, blockOf, fates) {
      if p < n {
        assert entryOf'[..n][p] == entryOf[..n][p];
        assert EntryInv(entries, entryOf[p], p, blockOf, fates);
        NextRefDiffers(hd, entries, |entryOf|, n, p);
      }
    }
  }

  lemma KeyedIndex(entries: seq<Entry>, headers: seq<Header>, entryOf: seq<Ref>, entryOf': seq<Ref>, blockOf: seq<Block>, fates: seq<Fate>)
    requires IndexInv(entries, headers, entryOf, blockOf, fates) && headers != [] && Current(headers).at == |blockOf| - 1
    requires NextIsFree(Current(headers), blockOf, fates) && |fates| == |blockOf|
    requires |entryOf'| == |blockOf| + 1 && entryOf <= entryOf' && |Current(headers).index| == Current(headers).size > 0
    requires var hd := Current(headers); entryOf'[|blockOf|] == hd.index[SlotOf(hd.start, hd.size, |blockOf|)]
    ensures IndexInv(WithKey(entries, entryOf'[|blockOf|], Word(|blockOf| * BLOCK_SIZE)),
                     WithCurrent(headers, Keyed(Current(headers), |blockOf|)), entryOf', blockOf, fates)
  {
    var hd, n := Current(headers), |blockOf|;
    assert HeaderInv(hd, entryOf);
    KeyedHeader(hd, n, entryOf, entryOf');
    OldHeadersKeyed(headers, Keyed(hd, n), entryOf, entryOf');
    KeyedRefs(hd, entries, |entryOf|, n, Word(n * BLOCK_SIZE));
    KeyedEntries(hd, entries, entryOf, entryOf', n, blockOf, fates);
  }

  lemma KeyedCovers(headers: seq<Header>, n: nat, entryOf: seq<Ref>, fates: seq<Fate>)
    requires headers != [] && HeaderInv(Current(headers), entryOf) && n <= |entryOf| <= n + 1 == |fates| + 1
    requires Current(headers).top == |entryOf| - 1 && Current(headers).lo == Max(Current(headers).start, |entryOf| - Current(headers).size)
    requires forall p: nat :: Current(headers).start <= p < |fates| && p == n - Current(headers).size ==> Dead(fates[p])
    ensures HeadersGrow(headers, WithCurrent(headers, Keyed(Current(headers), n)), fates)
  {
  }

  /** The entry numbers after the key is stored. */
  lemma KeyedNumbers(q: Queue)
    requires Inv(q) && q.producer.StoreKey?
    ensures var n := |q.blockOf|; var entryOf' := q.entryOf[..Min(|q.entryOf|, n)] + [NewRef(q)];
            && |entryOf'| == n + 1 && q.entryOf <= entryOf' && entryOf'[n] == NewRef(q)
            && var hd := Current(q.headers);
            && hd.size > 0 && |hd.index| == hd.size && NewRef(q) == hd.index[SlotOf(hd.start, hd.size, n)]
  {
    NewTailSlot(q);
    NextEntry(q);
  }

  lemma StoreKeyStep(q: Queue, q': Queue)
    requires Inv(q) && q.producer.StoreKey?
    requires q' == q.(entries := WithKey(q.entries, NewRef(q), Word(q.claims.tail)),
                      headers := WithCurrent(q.headers, Keyed(Current(q.headers), |q.blockOf|)),
                      entryOf := q.entryOf[..Min(|q.entryOf|, |q.blockOf|)] + [NewRef(q)],
                      producer := StoreIndexTail(q.producer.item))
    ensures Inv(q')
  {
    KeyedNumbers(q);
    KeyedIndex(q.entries, q.headers, q.entryOf, q'.entryOf, q.blockOf, q.fates);
    assert HeaderInv(Current(q.headers), q.entryOf);
    KeyedCovers(q.headers, |q.blockOf|, q.entryOf, q.fates);
    KeyedStage(q, q');
    IndexStep(q, q');
  }

  lemma KeyedStage(q: Queue, q': Queue)
    requires ProducerInv(q) && q.producer.StoreKey? && |q'.entryOf| == |q.blockOf| + 1
    requires q' == q.(entries := q'.entries, headers := WithCurrent(q.headers, Keyed(Current(q.headers), |q.blockOf|)),
                      entryOf := q'.entryOf, producer := StoreIndexTail(q.producer.item))
    ensures ProducerInv(q')
  {
  }

  // ---------------------------------------------------------------------------
  // Moving the index tail
  // ---------------------------------------------------------------------------

  function Turned(hd: Header, at: int): Header { hd.(tail := SlotOf(hd.start, hd.size, at), at := at) }

  lemma TurnedIndex(entries: seq<Entry>, headers: seq<Header>, entryOf: seq<Ref>, blockOf: seq<Block>, fates: seq<Fate>, at: int)
    requires IndexInv(entries, headers, entryOf, blockOf, fates) && headers != [] && -1 <= at <= |entryOf| - 1
    ensures IndexInv(entries, WithCurrent(headers, Turned(Current(headers), at)), entryOf, blockOf, fates)
    ensures HeadersGrow(headers, WithCurrent(headers, Turned(Current(headers), at)), fates)
  {
    var hd, hd' := Current(headers), Turned(Current(headers), at);
    assert HeaderInv(hd, entryOf);
    OldHeadersKeyed(headers, hd', entryOf, entryOf);
    assert IndexRefs(hd', entries, |entryOf|);
  }

  lemma TurnStep(q: Queue, q': Queue, at: int, p: Producer)
    requires Inv(q) && q.headers != [] && |q.entryOf| == |q.blockOf| + 1
    requires q.producer.StoreIndexTail? ==> at == |q.blockOf| && p == TakeBlock(q.producer.item)
    requires q.producer.Rewind? ==> at == |q.blockOf| - 1 && p == ClearEntry
    requires q.producer.StoreIndexTail? || q.producer.Rewind?
    requires q' == q.(headers := WithCurrent(q.headers, Turned(Current(q.headers), at)), producer := p)
    ensures Inv(q')
  {
    TurnedIndex(q.entries, q.headers, q.entryOf, q.blockOf, q.fates, at);
    TurnedStage(q, q', at, p);
    IndexStep(q, q');
  }

  lemma TurnedStage(q: Queue, q': Queue, at: int, p: Producer)
    requires ProducerInv(q) && q.headers != [] && |q.entryOf| == |q.blockOf| + 1
    requires q.producer.StoreIndexTail? ==> at == |q.blockOf| && p == TakeBlock(q.producer.item)
    requires q.producer.Rewind? ==> at == |q.blockOf| - 1 && p == ClearEntry
    requires q.producer.StoreIndexTail? || q.producer.Rewind?
    requires q' == q.(headers := WithCurrent(q.headers, Turned(Current(q.headers), at)), producer := p)
    ensures ProducerInv(q')
  {
  }

  lemma PreviousSlot(start: int, size: nat, p: int)
    requires size > 0
    ensures (SlotOf(start, size, p) - 1) % size == SlotOf(start, size, p - 1)
  {
    SlotMoves(start, size, p, -1);
  }

  lemma StoreIndexTailStep(q: Queue)
    requires Inv(q) && q.producer.StoreIndexTail?
    ensures Inv(Move(q.(headers := WithCurrent(q.headers, Current(q.headers).(tail := NewTail(q), at := |q.blockOf|))),
                     TakeBlock(q.producer.item)))
  {
    NewTailSlot(q);
    TurnStep(q, Move(q.(headers := WithCurrent(q.headers, Turned(Current(q.headers), |q.blockOf|))), TakeBlock(q.producer.item)),
             |q.blockOf|, TakeBlock(q.producer.item));
  }

  lemma RewoundSlot(q: Queue)
    requires Inv(q) && q.producer.Rewind?
    ensures var hd := Current(q.headers);
            q.headers != [] && |q.entryOf| == |q.blockOf| + 1
            && Mod(hd.tail - 1, hd.size) == SlotOf(hd.start, hd.size, |q.blockOf| - 1)
  {
    hide ReadersInv, BlocksInv, FatesInv, FateOwners, CellInv, DeliveryInv;
    C.HeaderFacts(q, |q.headers| - 1);
    PreviousSlot(Current(q.headers).start, Current(q.headers).size, |q.blockOf|);
  }

  lemma RewindStep(q: Queue, q': Queue)
    requires Inv(q) && q.producer.Rewind?
    requires var hd := Current(q.headers);
             q' == q.(headers := WithCurrent(q.headers, hd.(tail := Mod(hd.tail - 1, hd.size), at := |q.blockOf| - 1)),
                      producer := ClearEntry)
    ensures Inv(q')
  {
    RewoundSlot(q);
    TurnStep(q, q', |q.blockOf| - 1, ClearEntry);
  }

  // ---------------------------------------------------------------------------
  // Entering the block
  // ---------------------------------------------------------------------------

  /** Storing the value of the entry of the block to come touches no other entry. */
  lemma PendingValue(entries: seq<Entry>, headers: seq<Header>, entryOf: seq<Ref>, blockOf: seq<Block>, fates: seq<Fate>, b: Block)
    requires IndexInv(entries, headers, entryOf, blockOf, fates) && headers != []
    requires |entryOf| == |blockOf| + 1 && |fates| == |blockOf|
    ensures IndexInv(WithValue(entries, entryOf[|blockOf|], b), headers, entryOf, blockOf, fates)
    ensures IndexInv(WithValue(entries, entryOf[|blockOf|], b), headers, entryOf, blockOf + [b], fates + [Open])
    ensures entryOf[|blockOf|] < |entries|
  {
    var n, lo := |blockOf|, Current(headers).lo;
    var entries' := WithValue(entries, entryOf[n], b);
    assert HeaderInv(Current(headers), entryOf);
    assert EntryInv(entries, entryOf[n], n, blockOf, fates);
    forall p: nat | lo <= p < |entryOf|
      ensures EntryInv(entries', entryOf[p], p, blockOf, fates) && EntryInv(entries', entryOf[p], p, blockOf + [b], fates + [Open])
    {
      assert EntryInv(entries, entryOf[p], p, blockOf, fates);
      if p < n { C.EntriesDiffer(entries, headers, entryOf, blockOf, fates, p, n); }
    }
    assert forall r: Ref :: EntryAt(entries', r).key == EntryAt(entries, r).key;
  }

  lemma HeadersStay(headers: seq<Header>, fates: seq<Fate>)
    ensures HeadersGrow(headers, headers, fates)
  {
  }

  lemma ClearEntryStep(q: Queue, q': Queue)
    requires Inv(q) && q.producer.ClearEntry?
    requires q' == q.(entries := WithValue(q.entries, NewRef(q), NULL), producer := Ready)
    ensures Inv(q')
  {
    NextEntry(q);
    PendingValue(q.entries, q.headers, q.entryOf, q.blockOf, q.fates, NULL);
    HeadersStay(q.headers, q.fates);
    ClearedStage(q, q');
    IndexStep(q, q');
  }

  lemma ClearedStage(q: Queue, q': Queue)
    requires ProducerInv(q) && q.producer.ClearEntry? && q.entryOf[|q.blockOf|] < |q.entries|
    requires q' == q.(entries := WithValue(q.entries, q.entryOf[|q.blockOf|], NULL), producer := Ready)
    ensures ProducerInv(q')
  {
  }

  lemma FreshBlock(counts: map<Block, nat>, cells: map<Block, seq<Option<Item>>>, blockOf: seq<Block>, fates: seq<Fate>,
                   finished: set<nat>, b: Block)
    requires BlocksInv(counts, cells, blockOf, fates, finished) && b != NULL && !InUse(blockOf, fates, b)
    ensures BlocksInv(counts[b := 0], cells[b := seq(BLOCK_SIZE, _ => None)], blockOf, fates, finished)
  {
    var counts', cells' := counts[b := 0], cells[b := seq(BLOCK_SIZE, _ => None)];
    forall p: nat | p < |blockOf| && !fates[p].Returned?
      ensures BlockShape(counts', cells', blockOf[p]) && CountIn(counts', blockOf[p]) == |IndicesOf(p) * finished|
    {
      assert BlockShape(counts, cells, blockOf[p]) && blockOf[p] != b;
    }
  }

  lemma FreshCells(q: Queue, cells: map<Block, seq<Option<Item>>>, b: Block)
    requires Inv(q) && !InUse(q.blockOf, q.fates, b)
    requires forall c: Block :: c != b && c in q.cells ==> c in cells && cells[c] == q.cells[c]
    ensures CellInv(cells, q.blockOf, q.items, Waiting(q))
  {
    C.WaitingInUse(q);
    forall i | i in Waiting(q)
      ensures i < |q.items| && i / BLOCK_SIZE < |q.blockOf|
              && CellIn(cells, q.blockOf[i / BLOCK_SIZE], i % BLOCK_SIZE) == Some(q.items[i])
    {
      assert q.blockOf[i / BLOCK_SIZE] != b;
    }
  }

  lemma TakeBlockStep(q: Queue, q': Queue, b: Block)
    requires Inv(q) && q.producer.TakeBlock? && b != NULL && !InUse(q.blockOf, q.fates, b)
    requires q' == q.(counts := q.counts[b := 0], cells := q.cells[b := seq(BLOCK_SIZE, _ => None)],
                      producer := StoreValue(q.producer.item, b))
    ensures Inv(q')
  {
    SameSets(q, q');
    FreshBlock(q.counts, q.cells, q.blockOf, q.fates, Finished(q), b);
    FreshCells(q, q'.cells, b);
    HeadersStay(q.headers, q.fates);
    ReadersKept(q, q');
    assert ProducerInv(q');
  }

  /** None of the indices of a block to come is finished. */
  lemma NewBlock(counts: map<Block, nat>, cells: map<Block, seq<Option<Item>>>, blockOf: seq<Block>, fates: seq<Fate>,
                 finished: set<nat>, b: Block)
    requires BlocksInv(counts, cells, blockOf, fates, finished) && FatesInv(fates, finished) && !InUse(blockOf, fates, b)
    requires BlockShape(counts, cells, b) && counts[b] == 0
    requires forall i :: i in finished ==> i < |blockOf| * BLOCK_SIZE
    ensures BlocksInv(counts, cells, blockOf + [b], fates + [Open], finished) && FatesInv(fates + [Open], finished)
  {
    var n := |blockOf|;
    C.BlockRange(n);
    assert IndicesOf(n) * finished == {} by {
      forall i | i in finished ensures i !in IndicesOf(n) { assert LiesIn(i, n) ==> i >= n * BLOCK_SIZE; }
    }
    C.FullWhenAll(IndicesOf(n), finished);
    forall p: nat | p < n + 1 && !(fates + [Open])[p].Returned?
      ensures BlockShape(counts, cells, (blockOf + [b])[p])
      ensures CountIn(counts, (blockOf + [b])[p]) == |IndicesOf(p) * finished|
      ensures forall r: nat :: r < p && !(fates + [Open])[r].Returned? ==> (blockOf + [b])[r] != (blockOf + [b])[p]
    {
      if p < n { assert !fates[p].Returned?; }
    }
  }

  lemma TailEntry(q: Queue)
    requires Inv(q) && q.producer.StoreValue?
    ensures |q.entryOf| == |q.blockOf| + 1 && TailRef(q) == q.entryOf[|q.blockOf|]
  {
    assert HeaderInv(Current(q.headers), q.entryOf);
  }

  lemma StoreValueStep(q: Queue, q': Queue, b: Block)
    requires Inv(q) && q.producer.StoreValue? && b == q.producer.b
    requires q' == q.(entries := WithValue(q.entries, TailRef(q), b), tailBlock := b,
                      blockOf := q.blockOf + [b], fates := q.fates + [Open], producer := StoreItem(q.producer.item))
    ensures Inv(q')
  {
    SameSets(q, q');
    TailEntry(q);
    PendingValue(q.entries, q.headers, q.entryOf, q.blockOf, q.fates, b);
    NewBlock(q.counts, q.cells, q.blockOf, q.fates, Finished(q), b);
    HeadersStay(q.headers, q.fates);
    ReadersKept(q, q');
    StoredStage(q, q', b);
    forall p: nat | p < |q'.fates| ensures FateOwner(q'.fates[p], p, q.readers) {
      if p < |q.fates| { assert FateOwner(q.fates[p], p, q.readers); }
    }
  }

  lemma StoredStage(q: Queue, q': Queue, b: Block)
    requires ProducerInv(q) && q.producer.StoreValue? && b == q.producer.b
    requires q' == q.(entries := q'.entries, tailBlock := b,
                      blockOf := q.blockOf + [b], fates := q.fates + [Open], producer := StoreItem(q.producer.item))
    ensures ProducerInv(q')
  {
  }

  // ---------------------------------------------------------------------------
  // Putting the item in
  // ---------------------------------------------------------------------------

  lemma TailIsInLastBlock(q: Queue)
    requires ProducerInv(q) && q.producer.StoreItem?
    ensures q.claims.tail / BLOCK_SIZE == |q.blockOf| - 1 && q.tailBlock == q.blockOf[|q.blockOf| - 1]
    ensures |q.items| == q.claims.tail
  {
  }

  /** The tail block is open: the tail index itself is not finished. */
  lemma TailBlockOpen(q: Queue)
    requires Inv(q) && q.producer.StoreItem?
    ensures var p := q.claims.tail / BLOCK_SIZE;
            && p == |q.blockOf| - 1 == |q.fates| - 1 && q.fates[p].Open? && q.tailBlock == q.blockOf[p]
            && |q.items| == q.claims.tail
  {
    TailIsInLastBlock(q);
    TailIndexUnfinished(q);
    TailIndexOpen(q.fates, Finished(q), q.claims.tail, |q.blockOf| - 1);
  }

  lemma TailIndexUnfinished(q: Queue)
    requires Inv(q)
    ensures q.claims.tail !in Finished(q) && |q.fates| == |q.blockOf|
  {
    Claims.GrantsNeverExceedTail(q.claims);
  }

  lemma TailIndexOpen(fates: seq<Fate>, finished: set<nat>, i: nat, p: nat)
    requires FatesInv(fates, finished) && i !in finished && p == i / BLOCK_SIZE < |fates|
    ensures fates[p].Open?
  {
    assert LiesIn(i, p) && i in IndicesOf(p);
  }

  lemma ItemCells(counts: map<Block, nat>, cells: map<Block, seq<Option<Item>>>, blockOf: seq<Block>, fates: seq<Fate>,
                  finished: set<nat>, items: seq<Item>, waiting: set<nat>, item: Item)
    requires BlocksInv(counts, cells, blockOf, fates, finished) && CellInv(cells, blockOf, items, waiting)
    requires forall j :: j in waiting ==> j / BLOCK_SIZE < |fates| && !fates[j / BLOCK_SIZE].Returned?
    requires |items| / BLOCK_SIZE < |blockOf| && fates[|items| / BLOCK_SIZE].Open?
    ensures var cells' := CellsWith(cells, blockOf[|items| / BLOCK_SIZE], |items| % BLOCK_SIZE, Some(item));
            && CellInv(cells', blockOf, items + [item], waiting + {|items|})
            && BlocksInv(counts, cells', blockOf, fates, finished)
  {
    var n, b := |items|, blockOf[|items| / BLOCK_SIZE];
    var cells' := CellsWith(cells, b, n % BLOCK_SIZE, Some(item));
    assert BlockShape(counts, cells, b);
    forall j | j in waiting + {n}
      ensures j < n + 1 && j / BLOCK_SIZE < |blockOf|
              && CellIn(cells', blockOf[j / BLOCK_SIZE], j % BLOCK_SIZE) == Some((items + [item])[j])
    {
      if j != n {
        var p, r := n / BLOCK_SIZE, j / BLOCK_SIZE;
        if r < p { assert blockOf[r] != blockOf[p]; }
      }
    }
    forall p: nat | p < |blockOf| && !fates[p].Returned? ensures BlockShape(counts, cells', blockOf[p]) {
      assert BlockShape(counts, cells, blockOf[p]);
    }
  }

  lemma ItemDelivery(head: nat, tail: nat, items: seq<Item>, owner: seq<Thread>, delivered: map<nat, Item>, waiting: set<nat>, item: Item)
    requires DeliveryInv(head, tail, items, owner, delivered, waiting) && |items| == tail
    ensures DeliveryInv(head, tail, items + [item], owner, delivered, waiting + {|items|})
  {
  }

  lemma ItemStage(q: Queue, q': Queue, item: Item)
    requires ProducerInv(q) && q.producer.StoreItem? && item == q.producer.item
    requires q' == q.(cells := q'.cells, items := q.items + [item], producer := StoreTail(item))
    ensures ProducerInv(q')
  {
  }

  lemma ItemMemory(q: Queue, q': Queue, item: Item, p: nat)
    requires Inv(q) && p == |q.items| / BLOCK_SIZE < |q.fates| && q.fates[p].Open? && |q.items| == q.claims.tail
    requires Finished(q') == Finished(q) && Waiting(q') == Waiting(q) + {|q.items|}
    requires q'.cells == CellsWith(q.cells, q.blockOf[p], |q.items| % BLOCK_SIZE, Some(item)) && q'.items == q.items + [item]
    ensures CellInv(q'.cells, q.blockOf, q'.items, Waiting(q')) && BlocksInv(q.counts, q'.cells, q.blockOf, q.fates, Finished(q'))
    ensures DeliveryInv(q.claims.head, q.claims.tail, q'.items, q.owner, q.delivered, Waiting(q'))
  {
    C.WaitingInUse(q);
    ItemCells(q.counts, q.cells, q.blockOf, q.fates, Finished(q), q.items, Waiting(q), item);
    ItemDelivery(q.claims.head, q.claims.tail, q.items, q.owner, q.delivered, Waiting(q), item);
  }

  lemma StoredItem(q: Queue, q': Queue, item: Item, p: nat)
    requires Inv(q) && q.producer.StoreItem? && item == q.producer.item && p == |q.items| / BLOCK_SIZE
    requires p < |q.fates| && q.fates[p].Open? && |q.items| == q.claims.tail
    requires q' == q.(cells := CellsWith(q.cells, q.blockOf[p], |q.items| % BLOCK_SIZE, Some(item)),
                      items := q.items + [item], producer := StoreTail(item))
    ensures Inv(q')
  {
    SameSets(q, q');
    ItemMemory(q, q', item, p);
    HeadersStay(q.headers, q.fates);
    ReadersKept(q, q');
    ItemStage(q, q', item);
  }

  lemma StoreItemStep(q: Queue, q': Queue, item: Item)
    requires Inv(q) && q.producer.StoreItem? && item == q.producer.item
    requires q' == q.(cells := CellsWith(q.cells, q.tailBlock, Word(q.claims.tail) % BLOCK_SIZE, Some(item)),
                      items := q.items + [item], producer := StoreTail(item))
    ensures Inv(q')
  {
    TailBlockOpen(q);
    OffsetOfWord(q.claims.tail);
    StoredItem(q, q', item, q.claims.tail / BLOCK_SIZE);
  }

  lemma TailStage(q: Queue, q': Queue)
    requires ProducerInv(q) && q.producer.StoreTail?
    requires q' == q.(claims := q'.claims, producer := Ready) && q'.claims.tail == q.claims.tail + 1
    ensures ProducerInv(q')
  {
  }

  lemma PublishedClaims(c: Claims.State)
    requires Claims.Inv(c)
    ensures var c' := Claims.Do(c, Claims.Publish(1));
            && Claims.Inv(c') && c'.head == c.head && c'.tail == c.tail + 1 && c'.pc == c.pc
  {
    Claims.InvKept(c, Claims.Publish(1));
  }

  lemma StoreTailStep(q: Queue, q': Queue)
    requires Inv(q) && q.producer.StoreTail?
    requires q' == q.(claims := Claims.Do(q.claims, Claims.Publish(1)), producer := Ready)
    ensures Inv(q')
  {
    PublishedClaims(q.claims);
    SameSets(q, q');
    HeadersStay(q.headers, q.fates);
    ReadersKept(q, q');
    TailStage(q, q');
  }

  // ---------------------------------------------------------------------------
  // All steps
  // ---------------------------------------------------------------------------

  lemma GrowOrGiveUp(q: Queue, grown: Option<Garbage>)
    requires Inv(q) && q.producer.GrowIndex? && CanDo(q, Produce(None, grown))
    ensures Inv(DoFindEntry(q, grown))
  {
    if grown.Some? { GrowStep(q, grown.value); } else { MoveStep(q, Ready); }
  }

  lemma FindEntryKeepsInv(q: Queue, q': Queue, grown: Option<Garbage>)
    requires Inv(q) && FindingEntry(q.producer) && CanDo(q, Produce(None, grown)) && q' == DoFindEntry(q, grown)
    ensures Inv(q')
  {
    var p := q.producer;
    if p.LoadHead? { LoadHeadStep(q, q'.producer); }
    else if p.CheckEntry? { CheckEntryStep(q); }
    else { GrowOrGiveUp(q, grown); }
  }

  lemma KeyEntryKeepsInv(q: Queue, q': Queue)
    requires Inv(q) && KeyingEntry(q.producer) && q' == DoKeyEntry(q)
    ensures Inv(q')
  {
    hide Inv, DoKeyEntry;
    if q.producer.StoreKey? {
      KeyTarget(q);
      StoreKeyStep(q, q');
    } else {
      IndexTailTarget(q);
      StoreIndexTailStep(q);
    }
  }

  lemma KeyTarget(q: Queue)
    requires q.producer.StoreKey?
    ensures DoKeyEntry(q) ==
            q.(entries := WithKey(q.entries, NewRef(q), Word(q.claims.tail)),
               headers := WithCurrent(q.headers, Keyed(Current(q.headers), |q.blockOf|)),
               entryOf := q.entryOf[..Min(|q.entryOf|, |q.blockOf|)] + [NewRef(q)],
               producer := StoreIndexTail(q.producer.item))
  {
  }

  lemma IndexTailTarget(q: Queue)
    requires q.producer.StoreIndexTail?
    ensures DoKeyEntry(q) ==
            Move(q.(headers := WithCurrent(q.headers, Current(q.headers).(tail := NewTail(q), at := |q.blockOf|))), TakeBlock(q.producer.item))
  {
  }

  lemma TakeOrGiveUp(q: Queue, block: Option<Block>)
    requires Inv(q) && q.producer.TakeBlock? && CanDo(q, Produce(block, None))
    ensures Inv(DoEnterBlock(q, block))
  {
    if block.Some? {
      TakeBlockStep(q, DoEnterBlock(q, block), block.value);
    } else {
      RewindStage(q);
      MoveStep(q, Rewind);
    }
  }

  lemma RewindStage(q: Queue)
    requires ProducerInv(q) && q.producer.TakeBlock?
    ensures ProducerInv(Move(q, Rewind))
  {
  }

  lemma EnterBlockKeepsInv(q: Queue, q': Queue, block: Option<Block>)
    requires Inv(q) && CanDo(q, Produce(block, None)) && q' == DoEnterBlock(q, block)
    requires q.producer.TakeBlock? || q.producer.StoreValue? || q.producer.Rewind? || q.producer.ClearEntry?
    ensures Inv(q')
  {
    hide Inv;
    var p := q.producer;
    if p.TakeBlock? { TakeOrGiveUp(q, block); }
    else if p.StoreValue? { StoreValueStep(q, q', p.b); }
    else if p.Rewind? { RewindStep(q, q'); }
    else { ClearEntryStep(q, q'); }
  }

  lemma StoreKeepsInv(q: Queue, q': Queue)
    requires Inv(q) && (q.producer.StoreItem? || q.producer.StoreTail?) && q' == DoStoreItem(q)
    ensures Inv(q')
  {
    if q.producer.StoreItem? { StoreItemStep(q, q', q.producer.item); } else { StoreTailStep(q, q'); }
  }

  lemma ProduceKeepsInv(q: Queue, q': Queue, block: Option<Block>, grown: Option<Garbage>)
    requires Inv(q) && CanDo(q, Produce(block, grown)) && q' == DoProduce(q, block, grown)
    ensures Inv(q')
  {
    if FindingEntry(q.producer) { FindEntryKeepsInv(q, q', grown); }
    else if KeyingEntry(q.producer) { KeyEntryKeepsInv(q, q'); }
    else if q.producer.StoreItem? || q.producer.StoreTail? { StoreKeepsInv(q, q'); }
    else { EnterBlockKeepsInv(q, q', block); }
  }

  /** Every step of the producer keeps the invariant. */
  lemma ProducerStepKeepsInv(q: Queue, e: Event)
    requires Inv(q) && CanDo(q, e) && (e.Enqueue? || e.Produce?)
    ensures Inv(Do(q, e))
  {
    match e
    case Enqueue(item) => EnqueueStep(q, item);
    case Produce(block, grown) => ProduceKeepsInv(q, Do(q, e), block, grown);
  }
}
