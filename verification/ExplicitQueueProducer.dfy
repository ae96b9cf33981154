/** Every step of the producer keeps the invariant of the explicit producer's queue. */
module ExplicitQueueProducer {
  import opened Arithmetic
  import opened Collections
  import opened Words
  import opened BlockIndex
  import opened ExplicitQueue
  import opened ExplicitQueueInvariant
  import C = ExplicitQueueConsumers
  import Claims

  /** Headers only gain entries, except for entries of block numbers below x. */
  ghost predicate HeadersGrow(hs: seq<Header>, hs': seq<Header>, x: int) {
    && |hs| <= |hs'|
    && forall h :: 0 <= h < |hs| ==>
         && hs'[h].start == hs[h].start && hs'[h].size == hs[h].size && hs[h].hi <= hs'[h].hi
         && (hs'[h].lo <= hs[h].lo || hs'[h].lo <= x)
  }

  lemma PlaceKept(hs: seq<Header>, hs': seq<Header>, blockOf: seq<Block>, blockOf': seq<Block>, x: int, r: Reader)
    requires PlaceInv(hs, blockOf, r) && HeadersGrow(hs, hs', x) && blockOf <= blockOf'
    requires r.Resting? || x <= Start(r) / BLOCK_SIZE
    ensures PlaceInv(hs', blockOf', r)
  {
  }

  /** Whatever a reader looks at stays in its place. */
  lemma ReaderKept(q: Queue, q': Queue, u: Thread)
    requires Inv(q) && q'.readers == q.readers && q'.owner == q.owner && q'.claims.pc == q.claims.pc
    requires q'.claims.head == q.claims.head && q.blockOf <= q'.blockOf
    requires HeadersGrow(q.headers, q'.headers, First(q))
    ensures ReaderInv(q', u)
  {
    var r := ReaderOf(q, u);
    assert ReaderInv(q, u);
    if !r.Resting? {
      assert Unmarked(r, Start(r));
      C.UnmarkedInRing(q, u, Start(r));
    }
    PlaceKept(q.headers, q'.headers, q.blockOf, q'.blockOf, First(q), r);
    ReaderFrame(q, q', u);
  }

  lemma ReaderFrame(q: Queue, q': Queue, u: Thread)
    requires ReaderInv(q, u) && q'.readers == q.readers && q'.owner == q.owner && q'.claims.pc == q.claims.pc
    requires q'.claims.head == q.claims.head && PlaceInv(q'.headers, q'.blockOf, ReaderOf(q, u))
    ensures ReaderInv(q', u)
  {
    forall i: nat | Unmarked(ReaderOf(q', u), i) ensures i < q'.claims.head && OwnerOf(q', i) == u {
      assert Unmarked(ReaderOf(q, u), i);
    }
  }

  /** Steps that touch only the index and the producer's own position. */
  predicate OnlyIndex(q: Queue, q': Queue) {
    q' == q.(producer := q'.producer, headers := q'.headers, indexSize := q'.indexSize, indexFront := q'.indexFront)
  }

  lemma IndexStepKeepsRest(q: Queue, q': Queue)
    requires Inv(q) && OnlyIndex(q, q') && HeadersGrow(q.headers, q'.headers, First(q))
    ensures Claims.Inv(q'.claims) && RingInv(q') && FlagInv(q') && CellInv(q') && DeliveryInv(q')
    ensures forall u: Thread :: ReaderInv(q', u)
  {
    forall i: nat ensures Done(q', i) == Done(q, i) && Waiting(q', i) == Waiting(q, i) {}
    C.FlagsKept(q, q');
    C.CellsKept(q, q');
    forall u: Thread ensures ReaderInv(q', u) { ReaderKept(q, q', u); }
    forall i: nat | i < q.claims.head
      ensures if Unread(ReaderOf(q', q'.owner[i]), i) then i !in q'.delivered
              else i in q'.delivered && q'.delivered[i] == q'.items[i]
    {
      assert Unread(ReaderOf(q', q.owner[i]), i) == Unread(ReaderOf(q, q.owner[i]), i);
    }
  }

  /** Steps that only move the producer. */
  lemma MoveKeepsInv(q: Queue, p: Producer)
    requires Inv(q) && ProducerInv(Move(q, p)) && !Linking(p) && !Linking(q.producer)
    ensures Inv(Move(q, p))
  {
    IndexStepKeepsRest(q, Move(q, p));
  }

  lemma EnqueueTarget(q: Queue, item: Item)
    requires ProducerInv(q) && RingInv(q) && q.producer.Ready?
    ensures ProducerInv(DoEnqueue(q, item))
  {
    OffsetOfWord(q.claims.tail);
  }

  lemma EnqueueStep(q: Queue, item: Item)
    requires Inv(q) && q.producer.Ready?
    ensures Inv(DoEnqueue(q, item))
  {
    EnqueueTarget(q, item);
    MoveKeepsInv(q, DoEnqueue(q, item).producer);
  }

  lemma CheckFlagTarget(q: Queue, block: Option<Block>, grown: bool)
    requires ProducerInv(q) && q.producer.CheckFlag?
    requires !FlagAt(q, Next(q, q.tailBlock), q.producer.j) || q.producer.j + 1 < BLOCK_SIZE
    ensures var q' := DoProduce(q, block, grown);
            ProducerInv(q') && q' == Move(q, q'.producer) && (q'.producer.LoadHead? || q'.producer.CheckFlag?)
  {
  }

  lemma LoadHeadTarget(q: Queue, block: Option<Block>, grown: bool)
    requires ProducerInv(q) && q.producer.LoadHead?
    requires q.headers != [] ==> q.slotsUsed <= q.indexSize
    ensures var q' := DoProduce(q, block, grown);
            ProducerInv(q') && q' == Move(q, q'.producer) && !Linking(q'.producer)
  {
  }

  // ---------------------------------------------------------------------------
  // Blocks
  // ---------------------------------------------------------------------------

  /** A block whose flags are all up has all its items finished. */
  lemma EmptyBlockIsFinished(q: Queue, i: nat)
    requires Inv(q) && |q.blockOf| > 0 && FlagsUpTo(q.flags, Next(q, q.tailBlock), BLOCK_SIZE)
    requires i / BLOCK_SIZE == First(q)
    ensures Done(q, i)
  {
    var n := |q.blockOf|;
    assert NextIn(q.next, q.blockOf[n - 1]) == q.blockOf[After(First(q), q.blockOf, n - 1)];
    assert FlagIn(q.flags, q.blockOf[First(q)], BLOCK_SIZE - 1 - i % BLOCK_SIZE);
    assert Flag(q, i);
  }

  lemma CircleRotates(next: map<Block, Block>, first: int, blockOf: seq<Block>)
    requires Circle(next, first, blockOf) && first < |blockOf|
    ensures NextIn(next, blockOf[|blockOf| - 1]) == blockOf[first]
    ensures Circle(next, first + 1, blockOf + [blockOf[first]])
  {
    var n, blockOf' := |blockOf|, blockOf + [blockOf[first]];
    assert NextIn(next, blockOf[n - 1]) == blockOf[After(first, blockOf, n - 1)];
    forall p: nat | first + 1 <= p < n + 1
      ensures NextIn(next, blockOf'[p]) == blockOf'[After(first + 1, blockOf', p)]
    {
      if p < n { assert blockOf'[p] == blockOf[p]; }
      else { assert NextIn(next, blockOf[first]) == blockOf[After(first, blockOf, first)]; }
    }
    forall p: nat, r: nat | first + 1 <= p < r < n + 1 ensures blockOf'[p] != blockOf'[r] {
      assert blockOf[first] != blockOf[p];
    }
  }

  lemma ReuseKeepsFlags(q: Queue)
    requires Inv(q) && q.producer.CheckFlag? && FlagsUpTo(q.flags, Next(q, q.tailBlock), BLOCK_SIZE)
    ensures FlagInv(Move(ReuseBlock(q), StoreBase(q.producer.item)))
  {
    var q', n := Move(ReuseBlock(q), StoreBase(q.producer.item)), |q.blockOf|;
    CircleRotates(q.next, First(q), q.blockOf);
    forall i: nat | i / BLOCK_SIZE < |q'.blockOf|
      ensures if i / BLOCK_SIZE < First(q') then Done(q', i) else (Flag(q', i) <==> Done(q', i))
    {
      assert Done(q', i) == Done(q, i);
      if i / BLOCK_SIZE == First(q) && First(q) < n { EmptyBlockIsFinished(q, i); }
      else if First(q) < i / BLOCK_SIZE < n {
        assert q.blockOf[First(q)] != q.blockOf[i / BLOCK_SIZE];
        assert Flag(q', i) == Flag(q, i);
      }
    }
  }

  lemma ReuseKeepsRing(q: Queue)
    requires Inv(q) && q.producer.CheckFlag?
    ensures var q' := Move(ReuseBlock(q), StoreBase(q.producer.item)); RingInv(q') && ProducerInv(q') && IndexInv(q')
  {
    ReuseKeepsShapes(q);
    ReuseKeepsIndex(q);
  }

  lemma ReuseKeepsIndex(q: Queue)
    requires RingInv(q) && ProducerInv(q) && IndexInv(q) && q.producer.CheckFlag?
    ensures var q' := Move(ReuseBlock(q), StoreBase(q.producer.item)); ProducerInv(q') && IndexInv(q')
  {
    HeadersWithMoreBlocks(q.headers, q.blockOf, ReuseBlock(q).blockOf);
  }

  lemma ReuseKeepsShapes(q: Queue)
    requires RingInv(q) && ProducerInv(q) && q.producer.CheckFlag?
    ensures RingInv(Move(ReuseBlock(q), StoreBase(q.producer.item)))
  {
    var q' := Move(ReuseBlock(q), StoreBase(q.producer.item));
    CircleRotates(q.next, First(q), q.blockOf);
    forall p: nat | First(q') <= p < |q'.blockOf| ensures BlockShape(q'.flags, q'.cells, q'.blockOf[p]) {
      assert BlockShape(q.flags, q.cells, if p < |q.blockOf| then q.blockOf[p] else q.blockOf[First(q)]);
    }
  }

  lemma HeadersWithMoreBlocks(hs: seq<Header>, blockOf: seq<Block>, blockOf': seq<Block>)
    requires HeadersInv(hs, blockOf) && blockOf <= blockOf'
    ensures HeadersInv(hs, blockOf')
  {
    forall h | 0 <= h < |hs| ensures HeaderInv(hs[h], blockOf') {
      assert HeaderInv(hs[h], blockOf);
      forall p: nat | hs[h].lo <= p <= hs[h].hi ensures EntryIs(hs[h], p, blockOf') {
        assert EntryIs(hs[h], p, blockOf);
      }
    }
  }

  lemma DeliveriesKept(q: Queue, q': Queue)
    requires DeliveryInv(q) && q'.readers == q.readers && q'.owner == q.owner && q'.delivered == q.delivered
    requires q'.claims.head == q.claims.head && q'.claims.head <= q'.claims.tail <= |q'.items| && q.items <= q'.items
    ensures DeliveryInv(q')
  {
    forall i: nat | i < q.claims.head
      ensures if Unread(ReaderOf(q', q'.owner[i]), i) then i !in q'.delivered
              else i in q'.delivered && q'.delivered[i] == q'.items[i]
    {
      assert Unread(ReaderOf(q', q.owner[i]), i) == Unread(ReaderOf(q, q.owner[i]), i);
    }
  }

  lemma ReuseStep(q: Queue)
    requires Inv(q) && q.producer.CheckFlag? && FlagsUpTo(q.flags, Next(q, q.tailBlock), BLOCK_SIZE)
    ensures Inv(Move(ReuseBlock(q), StoreBase(q.producer.item)))
  {
    var q' := Move(ReuseBlock(q), StoreBase(q.producer.item));
    ReuseKeepsFlags(q);
    ReuseKeepsRing(q);
    DeliveriesKept(q, q');
    forall u: Thread ensures ReaderInv(q', u) { ReaderKept(q, q', u); }
    forall i: nat | Waiting(q', i) ensures i / BLOCK_SIZE < |q'.blockOf| && Cell(q', i) == Some(q'.items[i]) {
      assert Waiting(q, i);
    }
  }

  lemma CircleInserts(next: map<Block, Block>, first: int, blockOf: seq<Block>, b: Block, next': map<Block, Block>)
    requires Circle(next, first, blockOf) && (blockOf == [] || first < |blockOf|)
    requires forall p: nat :: first <= p < |blockOf| ==> blockOf[p] != b
    requires next' == if blockOf == [] then next[b := b]
                      else next[b := NextIn(next, blockOf[|blockOf| - 1])][blockOf[|blockOf| - 1] := b]
    ensures Circle(next', first, blockOf + [b])
  {
    var n, blockOf' := |blockOf|, blockOf + [b];
    if n > 0 { assert NextIn(next, blockOf[n - 1]) == blockOf[After(first, blockOf, n - 1)]; }
    forall p: nat | first <= p < n + 1
      ensures NextIn(next', blockOf'[p]) == blockOf'[After(first, blockOf', p)]
    {
      if p < n - 1 {
        assert blockOf[p] != blockOf[n - 1];
        assert NextIn(next, blockOf[p]) == blockOf[After(first, blockOf, p)];
      }
    }
    forall p: nat, r: nat | first <= p < r < n + 1 ensures blockOf'[p] != blockOf'[r] {
      if r < n { assert blockOf[p] != blockOf[r]; }
    }
  }

  predicate Inserts(q: Queue, b: Block) { q.producer.TakeBlock? && b != NULL && !InRing(q, b) }

  function Inserted(q: Queue, b: Block): Queue
    requires Inserts(q, b)
  {
    Move(InsertBlock(q, b), StoreBase(q.producer.item))
  }

  lemma InsertKeepsRing(q: Queue, b: Block)
    requires Inv(q) && Inserts(q, b)
    ensures RingInv(Inserted(q, b))
  {
    var q' := Inserted(q, b);
    CircleInserts(q.next, First(q), q.blockOf, b, q'.next);
    forall p: nat | First(q') <= p < |q'.blockOf| ensures BlockShape(q'.flags, q'.cells, q'.blockOf[p]) {
      if p < |q.blockOf| { assert BlockShape(q.flags, q.cells, q.blockOf[p]); }
    }
  }

  lemma InsertKeepsIndex(q: Queue, b: Block)
    requires Inv(q) && Inserts(q, b)
    ensures IndexInv(Inserted(q, b)) && ProducerInv(Inserted(q, b))
  {
    HeadersWithMoreBlocks(q.headers, q.blockOf, Inserted(q, b).blockOf);
  }

  lemma InsertKeepsFlags(q: Queue, b: Block)
    requires Inv(q) && Inserts(q, b)
    ensures FlagInv(Inserted(q, b))
  {
    var q', n := Inserted(q, b), |q.blockOf|;
    forall i: nat | i / BLOCK_SIZE < |q'.blockOf|
      ensures if i / BLOCK_SIZE < First(q') then Done(q', i) else (Flag(q', i) <==> Done(q', i))
    {
      assert Done(q', i) == Done(q, i);
      if First(q) <= i / BLOCK_SIZE < n {
        assert q.blockOf[i / BLOCK_SIZE] != b;
        assert Flag(q', i) == Flag(q, i);
      }
    }
  }

  lemma InsertKeepsCells(q: Queue, b: Block)
    requires Inv(q) && Inserts(q, b)
    ensures CellInv(Inserted(q, b))
  {
    var q' := Inserted(q, b);
    forall i: nat | Waiting(q', i) ensures i / BLOCK_SIZE < |q'.blockOf| && Cell(q', i) == Some(q'.items[i]) {
      assert Waiting(q, i);
      C.WaitingInRing(q, i);
      assert q.blockOf[i / BLOCK_SIZE] != b;
      assert Cell(q', i) == Cell(q, i);
    }
  }

  lemma InsertStep(q: Queue, b: Block)
    requires Inv(q) && Inserts(q, b)
    ensures Inv(Inserted(q, b))
  {
    var q' := Inserted(q, b);
    InsertKeepsRing(q, b);
    InsertKeepsIndex(q, b);
    InsertKeepsFlags(q, b);
    InsertKeepsCells(q, b);
    DeliveriesKept(q, q');
    forall u: Thread ensures ReaderInv(q', u) { ReaderKept(q, q', u); }
  }

  // ---------------------------------------------------------------------------
  // The block index
  // ---------------------------------------------------------------------------

  /** The copy loop finds the entries of the ring's blocks, oldest first. */
  lemma OldEntry(q: Queue, p: nat)
    requires Inv(q) && q.headers != [] && !Linking(q.producer) && First(q) <= p < |q.blockOf|
    ensures OldBase(q, p - First(q)) == Word(p * BLOCK_SIZE) && OldBlock(q, p - First(q)) == q.blockOf[p]
  {
    var hd, k := Current(q), p - First(q);
    assert HeaderInv(hd, q.blockOf) && EntryIs(hd, p, q.blockOf);
    SlotMoves(hd.start, hd.size, |q.blockOf|, k - q.slotsUsed);
  }

  lemma SlotNearStart(start: int, size: int, p: int)
    requires start <= p < start + size
    ensures SlotOf(start, size, p) == p - start
  {
  }

  lemma NewHeaderIsRight(q: Queue)
    requires Inv(q) && q.producer.GrowIndex?
    ensures HeaderInv(Current(NewBlockIndex(q)), q.blockOf)
    ensures SlotOf(First(q), 2 * q.indexSize, |q.blockOf|) == q.slotsUsed
  {
    var hd, first := Current(NewBlockIndex(q)), First(q);
    if q.headers != [] { assert HeaderInv(Current(q), q.blockOf); }
    SlotNearStart(first, hd.size, |q.blockOf|);
    if q.slotsUsed > 0 { SlotNearStart(first, hd.size, |q.blockOf| - 1); }
    forall p: nat | hd.lo <= p <= hd.hi ensures EntryIs(hd, p, q.blockOf) { CopiedEntry(q, p); }
  }

  lemma CopiedEntry(q: Queue, p: nat)
    requires Inv(q) && q.producer.GrowIndex? && First(q) <= p < |q.blockOf|
    ensures EntryIs(Current(NewBlockIndex(q)), p, q.blockOf)
  {
    SlotNearStart(First(q), 2 * q.indexSize, p);
    OldEntry(q, p);
  }

  lemma GrowStep(q: Queue)
    requires Inv(q) && q.producer.GrowIndex? && IsCapacity(4 * q.indexSize)
    ensures Inv(Move(NewBlockIndex(q), TakeBlock(q.producer.item)))
  {
    var q' := Move(NewBlockIndex(q), TakeBlock(q.producer.item));
    IndexStepKeepsRest(q, q');
    NewHeaderIsRight(q);
    forall h | 0 <= h < |q'.headers| ensures HeaderInv(q'.headers[h], q'.blockOf) {
      if h < |q.headers| { assert HeaderInv(q.headers[h], q.blockOf); }
    }
  }

  lemma CurrentChanged(q: Queue, hd': Header)
    requires HeadersInv(q.headers, q.blockOf) && q.headers != [] && HeaderInv(hd', q.blockOf)
    requires hd'.start == Current(q).start && hd'.size == Current(q).size && hd'.hi >= Current(q).hi
    requires hd'.lo <= Current(q).lo || hd'.lo <= First(q)
    ensures var hs := SetCurrent(q, hd').headers; HeadersInv(hs, q.blockOf) && HeadersGrow(q.headers, hs, First(q))
  {
    var hs := SetCurrent(q, hd').headers;
    forall h | 0 <= h < |hs| ensures HeaderInv(hs[h], q.blockOf) {
      if h < |q.headers| - 1 { assert HeaderInv(q.headers[h], q.blockOf); }
    }
  }

  /** The slot about to be written is none of the intact entries'. */
  lemma FreshSlot(hd: Header, blockOf: seq<Block>, p: nat)
    requires HeaderInv(hd, blockOf) && p == hd.hi + 1 && p < hd.lo + hd.size
    ensures forall r: nat :: hd.lo <= r <= hd.hi ==> SlotOf(hd.start, hd.size, r) != SlotOf(hd.start, hd.size, p)
  {
    forall r: nat | hd.lo <= r <= hd.hi ensures SlotOf(hd.start, hd.size, r) != SlotOf(hd.start, hd.size, p) {
      SlotsDiffer(hd.start, hd.size, r, p);
    }
  }

  /** Writing a slot that no intact entry uses keeps the intact entries. */
  lemma UnusedSlotWritten(hd: Header, hd': Header, blockOf: seq<Block>, slot: int)
    requires HeaderInv(hd, blockOf) && 0 <= slot < hd.size
    requires |hd'.base| == |hd'.block| == hd.size
    requires hd' == hd.(base := hd.base[slot := hd'.base[slot]], block := hd.block[slot := hd'.block[slot]])
    requires forall r: nat :: hd.lo <= r <= hd.hi ==> SlotOf(hd.start, hd.size, r) != slot
    ensures HeaderInv(hd', blockOf)
  {
    forall p: nat | hd.lo <= p <= hd.hi ensures EntryIs(hd', p, blockOf) {
      assert EntryIs(hd, p, blockOf);
    }
  }

  lemma LowerEndRaised(hd: Header, blockOf: seq<Block>, lo: nat)
    requires HeaderInv(hd, blockOf) && hd.lo <= lo
    ensures HeaderInv(hd.(lo := lo), blockOf)
  {
    forall p: nat | lo <= p <= hd.hi ensures EntryIs(hd.(lo := lo), p, blockOf) {
      assert EntryIs(hd, p, blockOf);
    }
  }

  lemma WithBaseIsRight(q: Queue)
    requires IndexInv(q) && q.headers != [] && q.producer.StoreBase? && |q.blockOf| > 0
    ensures HeaderInv(Current(q), q.blockOf) && 0 <= q.indexFront < |Current(q).base|
    ensures HeaderInv(WithBase(q), q.blockOf)
  {
    var hd := Current(q);
    assert HeaderInv(hd, q.blockOf);
    var raised := hd.(lo := Max(hd.lo, |q.blockOf| - hd.size));
    LowerEndRaised(hd, q.blockOf, raised.lo);
    FreshSlot(raised, q.blockOf, |q.blockOf| - 1);
    UnusedSlotWritten(raised, WithBase(q), q.blockOf, q.indexFront);
  }

  lemma EntryTarget(q: Queue, block: Option<Block>, grown: bool)
    requires q.producer.StoreBase? || q.producer.StoreBlock? || q.producer.StoreFront?
    ensures DoProduce(q, block, grown) ==
            match q.producer
            case StoreBase(item) => Move(SetCurrent(q, WithBase(q)), StoreBlock(item))
            case StoreBlock(item) => Move(SetCurrent(q, WithBlock(q)), StoreFront(item))
            case StoreFront(item) =>
              Move(SetCurrent(q, WithFront(q)).(indexFront := Mod(q.indexFront + 1, q.indexSize)), StoreItem(item))
            case _ => q
  {
  }

  lemma StoreBaseStep(q: Queue, block: Option<Block>, grown: bool)
    requires Inv(q) && q.producer.StoreBase?
    ensures Inv(DoProduce(q, block, grown))
  {
    BaseStored(q, block, grown);
    IndexStepKeepsRest(q, DoProduce(q, block, grown));
  }

  lemma BaseStored(q: Queue, block: Option<Block>, grown: bool)
    requires RingInv(q) && ProducerInv(q) && IndexInv(q) && q.producer.StoreBase?
    ensures var q' := DoProduce(q, block, grown);
            OnlyIndex(q, q') && HeadersGrow(q.headers, q'.headers, First(q)) && ProducerInv(q') && IndexInv(q')
  {
    hide DoProduce;
    EntryTarget(q, block, grown);
    WithBaseIsRight(q);
    CurrentChanged(q, WithBase(q));
  }

  lemma WithBlockIsRight(q: Queue)
    requires IndexInv(q) && q.headers != [] && q.producer.StoreBlock? && |q.blockOf| > 0
    ensures HeaderInv(Current(q), q.blockOf) && 0 <= q.indexFront < |Current(q).block|
    ensures HeaderInv(WithBlock(q), q.blockOf)
  {
    var hd := Current(q);
    assert HeaderInv(hd, q.blockOf);
    FreshSlot(hd, q.blockOf, |q.blockOf| - 1);
    UnusedSlotWritten(hd, WithBlock(q), q.blockOf, q.indexFront);
  }

  lemma StoreBlockStep(q: Queue, block: Option<Block>, grown: bool)
    requires Inv(q) && q.producer.StoreBlock?
    ensures Inv(DoProduce(q, block, grown))
  {
    BlockStored(q, block, grown);
    IndexStepKeepsRest(q, DoProduce(q, block, grown));
  }

  lemma BlockStored(q: Queue, block: Option<Block>, grown: bool)
    requires RingInv(q) && ProducerInv(q) && IndexInv(q) && q.producer.StoreBlock?
    ensures var q' := DoProduce(q, block, grown);
            OnlyIndex(q, q') && HeadersGrow(q.headers, q'.headers, First(q)) && ProducerInv(q') && IndexInv(q')
  {
    hide DoProduce;
    EntryTarget(q, block, grown);
    WithBlockIsRight(q);
    CurrentChanged(q, WithBlock(q));
  }

  lemma WithFrontIsRight(q: Queue)
    requires IndexInv(q) && q.headers != [] && q.producer.StoreFront? && |q.blockOf| > 0
    requires q.tailBlock == q.blockOf[|q.blockOf| - 1]
    ensures HeaderInv(WithFront(q), q.blockOf)
  {
    var hd, hd' := Current(q), WithFront(q);
    assert HeaderInv(hd, q.blockOf);
    forall p: nat | hd'.lo <= p <= hd'.hi ensures EntryIs(hd', p, q.blockOf) {
      if p < hd'.hi { assert EntryIs(hd, p, q.blockOf); }
    }
  }

  lemma StoreFrontStep(q: Queue, block: Option<Block>, grown: bool)
    requires Inv(q) && q.producer.StoreFront?
    ensures Inv(DoProduce(q, block, grown))
  {
    FrontStored(q, block, grown);
    IndexStepKeepsRest(q, DoProduce(q, block, grown));
  }

  lemma FrontStored(q: Queue, block: Option<Block>, grown: bool)
    requires RingInv(q) && ProducerInv(q) && IndexInv(q) && q.producer.StoreFront?
    ensures var q' := DoProduce(q, block, grown);
            OnlyIndex(q, q') && HeadersGrow(q.headers, q'.headers, First(q)) && ProducerInv(q') && IndexInv(q')
  {
    hide DoProduce;
    EntryTarget(q, block, grown);
    WithFrontIsRight(q);
    CurrentChanged(q, WithFront(q));
    FrontMoves(q);
  }

  lemma FrontMoves(q: Queue)
    requires ProducerInv(q) && IndexInv(q) && q.producer.StoreFront? && q.headers != []
    ensures var hd := Current(q); Mod(q.indexFront + 1, q.indexSize) == SlotOf(hd.start, hd.size, |q.blockOf|)
  {
    var hd := Current(q);
    assert HeaderInv(hd, q.blockOf);
    NextSlot(hd.start, hd.size, |q.blockOf| - 1);
  }

  // ---------------------------------------------------------------------------
  // The item and the tail
  // ---------------------------------------------------------------------------

  /** q' is q with the next item put into its slot. */
  ghost predicate PutIn(q: Queue, q': Queue, item: Item) {
    var b, i := q.tailBlock, q.claims.tail;
    && b in q.cells && |q.cells[b]| == BLOCK_SIZE
    && q' == q.(cells := q.cells[b := q.cells[b][i % BLOCK_SIZE := Some(item)]],
                items := q.items + [item], producer := StoreTail(item))
  }

  lemma PutInKeepsCells(q: Queue, q': Queue, item: Item)
    requires Inv(q) && q.producer.StoreItem? && PutIn(q, q', item)
    ensures CellInv(q')
  {
    forall j: nat | Waiting(q', j) ensures j / BLOCK_SIZE < |q'.blockOf| && Cell(q', j) == Some(q'.items[j]) {
      if j != q.claims.tail {
        assert Waiting(q, j);
        C.WaitingInRing(q, j);
        C.DifferentPlaces(q, q.claims.tail, j);
        assert Cell(q', j) == Cell(q, j);
      }
    }
  }

  lemma PutInKeepsRing(q: Queue, q': Queue, item: Item)
    requires RingInv(q) && ProducerInv(q) && IndexInv(q) && q.producer.StoreItem? && PutIn(q, q', item)
    ensures RingInv(q') && ProducerInv(q') && IndexInv(q')
  {
    C.ShapesKept(q, q');
  }

  lemma PutInKeepsRest(q: Queue, q': Queue, item: Item)
    requires Inv(q) && q.producer.StoreItem? && PutIn(q, q', item)
    ensures FlagInv(q') && DeliveryInv(q')
    ensures forall u: Thread :: ReaderInv(q', u)
  {
    forall j: nat ensures Done(q', j) == Done(q, j) {}
    C.FlagsKept(q, q');
    DeliveriesKept(q, q');
    forall u: Thread ensures ReaderInv(q', u) { ReaderKept(q, q', u); }
  }

  lemma StoreItemStep(q: Queue, block: Option<Block>, grown: bool)
    requires Inv(q) && q.producer.StoreItem?
    ensures Inv(DoProduce(q, block, grown))
  {
    var q', item := DoProduce(q, block, grown), q.producer.item;
    OffsetOfWord(q.claims.tail);
    C.ShapeInRing(q, |q.blockOf| - 1);
    PutInKeepsRing(q, q', item);
    PutInKeepsCells(q, q', item);
    PutInKeepsRest(q, q', item);
  }

  lemma PublishKeepsRest(q: Queue, q': Queue)
    requires Inv(q) && q' == q.(producer := Ready, claims := q.claims.(tail := q.claims.tail + 1))
    requires q.producer.StoreTail?
    ensures RingInv(q') && ProducerInv(q') && IndexInv(q') && FlagInv(q') && CellInv(q') && DeliveryInv(q')
  {
    forall j: nat ensures Done(q', j) == Done(q, j) && Waiting(q', j) == Waiting(q, j) {}
    C.FlagsKept(q, q');
    C.CellsKept(q, q');
    DeliveriesKept(q, q');
  }

  lemma StoreTailStep(q: Queue, block: Option<Block>, grown: bool)
    requires Inv(q) && q.producer.StoreTail?
    ensures Inv(DoProduce(q, block, grown))
  {
    var q' := DoProduce(q, block, grown);
    Claims.InvKept(q.claims, Claims.Publish(1));
    PublishKeepsRest(q, q');
    forall u: Thread ensures ReaderInv(q', u) { ReaderKept(q, q', u); }
  }

  lemma CheckFlagStep(q: Queue, block: Option<Block>, grown: bool)
    requires Inv(q) && q.producer.CheckFlag?
    ensures Inv(DoProduce(q, block, grown))
  {
    var j := q.producer.j;
    if FlagAt(q, Next(q, q.tailBlock), j) && j + 1 >= BLOCK_SIZE {
      LastFlagTarget(q, block, grown);
      ReuseStep(q);
    } else {
      FlagStep(q, block, grown);
    }
  }

  lemma LastFlagTarget(q: Queue, block: Option<Block>, grown: bool)
    requires ProducerInv(q) && q.producer.CheckFlag? && FlagAt(q, Next(q, q.tailBlock), q.producer.j)
    requires q.producer.j + 1 >= BLOCK_SIZE
    ensures FlagsUpTo(q.flags, Next(q, q.tailBlock), BLOCK_SIZE)
    ensures DoProduce(q, block, grown) == Move(ReuseBlock(q), StoreBase(q.producer.item))
  {
  }

  lemma FlagStep(q: Queue, block: Option<Block>, grown: bool)
    requires Inv(q) && q.producer.CheckFlag?
    requires !FlagAt(q, Next(q, q.tailBlock), q.producer.j) || q.producer.j + 1 < BLOCK_SIZE
    ensures Inv(DoProduce(q, block, grown))
  {
    CheckFlagTarget(q, block, grown);
    MoveKeepsInv(q, DoProduce(q, block, grown).producer);
  }

  lemma LoadHeadStep(q: Queue, block: Option<Block>, grown: bool)
    requires Inv(q) && q.producer.LoadHead?
    ensures Inv(DoProduce(q, block, grown))
  {
    LoadHeadTarget(q, block, grown);
    MoveKeepsInv(q, DoProduce(q, block, grown).producer);
  }

  lemma AllocationStep(q: Queue, e: Event)
    requires Inv(q) && CanDo(q, e) && e.Produce? && (q.producer.GrowIndex? || q.producer.TakeBlock?)
    ensures Inv(DoProduce(q, e.block, e.grown))
  {
    AllocationTarget(q, e);
    if q.producer.GrowIndex? && e.grown { GrowStep(q); }
    else if q.producer.TakeBlock? && e.block.Some? { InsertStep(q, e.block.value); }
    else { RefusedStep(q); }
  }

  lemma AllocationTarget(q: Queue, e: Event)
    requires CanDo(q, e) && e.Produce? && (q.producer.GrowIndex? || q.producer.TakeBlock?)
    ensures q.producer.GrowIndex? && e.grown ==> IsCapacity(4 * q.indexSize)
    ensures q.producer.TakeBlock? && e.block.Some? ==> Inserts(q, e.block.value)
    ensures DoProduce(q, e.block, e.grown) ==
            if q.producer.GrowIndex? && e.grown then Move(NewBlockIndex(q), TakeBlock(q.producer.item))
            else if q.producer.TakeBlock? && e.block.Some? then Inserted(q, e.block.value)
            else Move(q, Ready)
  {
  }

  lemma RefusedStep(q: Queue)
    requires Inv(q) && (q.producer.GrowIndex? || q.producer.TakeBlock?)
    ensures Inv(Move(q, Ready))
  {
    MoveKeepsInv(q, Ready);
  }

  /** Every step of the producer keeps the invariant. */
  lemma ProducerStepKeepsInv(q: Queue, e: Event)
    requires Inv(q) && CanDo(q, e) && (e.Enqueue? || e.Produce?)
    ensures Inv(Do(q, e))
  {
    if e.Enqueue? { EnqueueStep(q, e.item); }
    else if q.producer.CheckFlag? { CheckFlagStep(q, e.block, e.grown); }
    else if q.producer.LoadHead? { LoadHeadStep(q, e.block, e.grown); }
    else if q.producer.GrowIndex? || q.producer.TakeBlock? { AllocationStep(q, e); }
    else if q.producer.StoreBase? { StoreBaseStep(q, e.block, e.grown); }
    else if q.producer.StoreBlock? { StoreBlockStep(q, e.block, e.grown); }
    else if q.producer.StoreFront? { StoreFrontStep(q, e.block, e.grown); }
    else if q.producer.StoreItem? { StoreItemStep(q, e.block, e.grown); }
    else { StoreTailStep(q, e.block, e.grown); }
  }
}
