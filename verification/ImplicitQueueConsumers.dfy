/** Every step of a consumer keeps the invariant of the implicit producer's queue. */
module ImplicitQueueConsumers {
  import opened Arithmetic
  import opened Collections
  import opened Words
  import opened BlockIndex
  import opened ImplicitQueue
  import opened ImplicitQueueInvariant
  import Claims

  // ---------------------------------------------------------------------------
  // Frames
  // ---------------------------------------------------------------------------

  lemma SameFinished(q: Queue, q': Queue)
    requires q'.claims.head == q.claims.head && q'.owner == q.owner
    requires forall u: Thread, i: nat :: Unmarked(ReaderOf(q', u), i) == Unmarked(ReaderOf(q, u), i)
    ensures Finished(q') == Finished(q)
  {
  }

  lemma SameWaiting(q: Queue, q': Queue)
    requires q'.claims.head == q.claims.head && q'.owner == q.owner && q'.items == q.items
    requires forall u: Thread, i: nat :: Unread(ReaderOf(q', u), i) == Unread(ReaderOf(q, u), i)
    ensures Waiting(q') == Waiting(q)
  {
  }

  /** The readers other than t, when t takes a step that leaves index and claims alone. */
  lemma OtherReaders(q: Queue, q': Queue, t: Thread)
    requires ReadersInv(q)
    requires q'.headers == q.headers && q'.blockOf == q.blockOf && q'.fates == q.fates
    requires q'.claims == q.claims && q'.owner == q.owner
    requires forall u: Thread :: u != t ==> ReaderOf(q', u) == ReaderOf(q, u)
    requires ReaderInv(q.headers, q.blockOf, q.fates, q.claims.head, q.owner, ReaderOf(q', t), t, Claims.PcOf(q.claims, t))
    ensures ReadersInv(q')
  {
    forall u: Thread
      ensures ReaderInv(q'.headers, q'.blockOf, q'.fates, q'.claims.head, q'.owner, ReaderOf(q', u), u, Claims.PcOf(q'.claims, u))
    {
      assert ReaderInv(q.headers, q.blockOf, q.fates, q.claims.head, q.owner, ReaderOf(q, u), u, Claims.PcOf(q.claims, u));
    }
  }

  /** A consumer leaves the producer's side alone. */
  lemma ProducerUnmoved(q: Queue, q': Queue)
    requires ProducerInv(q) && q'.producer == q.producer && q'.headers == q.headers && q'.entryOf == q.entryOf
    requires q'.blockOf == q.blockOf && q'.fates == q.fates && q'.items == q.items && q'.tailBlock == q.tailBlock
    requires q'.entries == q.entries && q'.counts == q.counts && q'.cells == q.cells && q'.claims.tail == q.claims.tail
    ensures ProducerInv(q')
  {
  }

  predicate Releasing(r: Reader) { r.NullEntry? || r.ReturnBlock? }

  lemma FateOwnersKept(fates: seq<Fate>, readers: map<Thread, Reader>, t: Thread, r: Reader)
    requires FateOwners(fates, readers) && (t in readers ==> !Releasing(readers[t]))
    ensures FateOwners(fates, readers[t := r])
  {
    forall p: nat | p < |fates| ensures FateOwner(fates[p], p, readers[t := r]) {
      assert FateOwner(fates[p], p, readers);
    }
  }

  // ---------------------------------------------------------------------------
  // Looking a block up
  // ---------------------------------------------------------------------------

  predicate LookingUp(r: Reader) { r.LoadIndex? || r.LoadIndexTail? || r.LoadKey? || r.LoadValue? }

  /** What the invariant says of one reader. */
  lemma ReaderFacts(q: Queue, t: Thread)
    requires ReadersInv(q)
    ensures var r := ReaderOf(q, t);
            && PlaceInv(q.headers, q.blockOf, r) && FateOf(q.fates, r, t)
            && (!r.Resting? ==> Claims.PcOf(q.claims, t).Idle? && r.end <= q.claims.head && r.end - Start(r) < HALF)
            && OwnsInv(r, t, q.claims.head, q.owner)
  {
    assert ReaderInv(q.headers, q.blockOf, q.fates, q.claims.head, q.owner, ReaderOf(q, t), t, Claims.PcOf(q.claims, t));
  }

  /** A reader that moves within the indices it had. */
  predicate MovesWithin(r: Reader, r': Reader) {
    && LookingUp(r) && (LookingUp(r') || (r'.ReadItem? && r'.index == r'.first))
    && r'.end == r.end && Start(r') == Start(r)
  }

  lemma SameIndices(r: Reader, r': Reader)
    requires MovesWithin(r, r')
    ensures forall i: nat :: Unmarked(r', i) == Unmarked(r, i) && Unread(r', i) == Unread(r, i)
  {
  }

  lemma MovedReaders(q: Queue, t: Thread, r: Reader)
    requires ReadersInv(q) && MovesWithin(ReaderOf(q, t), r) && PlaceInv(q.headers, q.blockOf, r)
    ensures ReadersInv(Goto(q, t, r))
  {
    ReaderFacts(q, t);
    SameIndices(ReaderOf(q, t), r);
    OtherReaders(q, Goto(q, t, r), t);
  }

  lemma LookupKeepsSets(q: Queue, t: Thread, r: Reader)
    requires MovesWithin(ReaderOf(q, t), r)
    ensures Finished(Goto(q, t, r)) == Finished(q) && Waiting(Goto(q, t, r)) == Waiting(q)
  {
    SameIndices(ReaderOf(q, t), r);
    SameFinished(q, Goto(q, t, r));
    SameWaiting(q, Goto(q, t, r));
  }

  /** A step that only moves one reader, within the indices it had. */
  lemma LookupStep(q: Queue, t: Thread, r: Reader)
    requires Inv(q) && MovesWithin(ReaderOf(q, t), r) && PlaceInv(q.headers, q.blockOf, r)
    ensures Inv(Goto(q, t, r))
  {
    var q' := Goto(q, t, r);
    MovedReaders(q, t, r);
    LookupKeepsSets(q, t, r);
    FateOwnersKept(q.fates, q.readers, t, r);
    ProducerUnmoved(q, q');
  }

  /** A block with an unfinished claimed index is open, and the index still shows it. */
  lemma UnmarkedIsOpen(q: Queue, t: Thread, i: nat)
    requires Inv(q) && Unmarked(ReaderOf(q, t), i)
    ensures i < q.claims.head && OwnerOf(q, i) == t && i !in Finished(q)
    ensures i / BLOCK_SIZE < |q.blockOf| && i / BLOCK_SIZE < |q.fates| && q.fates[i / BLOCK_SIZE].Open?
    ensures q.headers != [] && Current(q.headers).lo <= i / BLOCK_SIZE
  {
    ReaderFacts(q, t);
    assert LiesIn(i, i / BLOCK_SIZE) && i in IndicesOf(i / BLOCK_SIZE);
  }

  lemma ClaimedHasBlock(q: Queue, end: nat)
    requires Inv(q) && 0 < end <= q.claims.head
    ensures (end - 1) / BLOCK_SIZE < |q.blockOf| <= |q.entryOf|
  {
    assert q.claims.tail <= |q.blockOf| * BLOCK_SIZE;
  }

  lemma HeaderFacts(q: Queue, h: nat)
    requires Inv(q) && h < |q.headers|
    ensures var hd := q.headers[h];
            && IsCapacity(hd.size) && |hd.index| == hd.size && hd.tail == SlotOf(hd.start, hd.size, hd.at) && hd.at <= hd.top
            && (h == |q.headers| - 1 ==> hd.top == |q.entryOf| - 1 && hd.at >= |q.blockOf| - 1)
            && (h < |q.headers| - 1 ==> hd.at == hd.top)
  {
    assert HeaderInv(q.headers[h], q.entryOf);
  }

  lemma LoadIndexPlace(q: Queue, t: Thread)
    requires Inv(q) && ReaderOf(q, t).LoadIndex?
    ensures var r := ReaderOf(q, t);
            && q.headers != [] && MovesWithin(r, LoadIndexTail(|q.headers| - 1, r.index, r.end))
            && PlaceInv(q.headers, q.blockOf, LoadIndexTail(|q.headers| - 1, r.index, r.end))
  {
    var r := ReaderOf(q, t);
    ReaderFacts(q, t);
    UnmarkedIsOpen(q, t, r.index);
    ClaimedHasBlock(q, r.end);
    HeaderFacts(q, |q.headers| - 1);
  }

  lemma LoadIndexStep(q: Queue, t: Thread)
    requires Inv(q) && ReaderOf(q, t).LoadIndex?
    ensures Inv(DoLookup(q, t, ReaderOf(q, t)))
  {
    var r := ReaderOf(q, t);
    LoadIndexPlace(q, t);
    LookupStep(q, t, LoadIndexTail(|q.headers| - 1, r.index, r.end));
  }

  lemma LoadIndexTailStep(q: Queue, t: Thread)
    requires Inv(q) && ReaderOf(q, t).LoadIndexTail?
    ensures Inv(DoLookup(q, t, ReaderOf(q, t)))
  {
    var r := ReaderOf(q, t);
    ReaderFacts(q, t);
    ClaimedHasBlock(q, r.end);
    HeaderFacts(q, r.h);
    var hd := q.headers[r.h];
    LookupStep(q, t, LoadKey(r.h, hd.tail, hd.at, r.index, r.end));
  }

  /** The entry of a block number that its header still covers. */
  lemma EntrySeen(q: Queue, h: nat, p: nat)
    requires Inv(q) && h < |q.headers| && q.headers[h].lo <= p <= q.headers[h].top && Current(q.headers).lo <= p
    ensures var hd := q.headers[h];
            && IsCapacity(hd.size) && p < |q.entryOf| && RefAt(hd, SlotOf(hd.start, hd.size, p)) == q.entryOf[p]
            && EntryInv(q.entries, q.entryOf[p], p, q.blockOf, q.fates)
  {
    assert HeaderInv(q.headers[h], q.entryOf);
  }

  /** The slot computed from the tail entry's key is the claimed block's. */
  lemma KeyLeadsToSlot(q: Queue, r: Reader)
    requires Inv(q) && r.LoadKey? && PlaceInv(q.headers, q.blockOf, r) && Current(q.headers).lo <= r.index / BLOCK_SIZE
    ensures var hd := HeaderAt(q.headers, r.h);
            && IsCapacity(hd.size) && EntryAt(q.entries, RefAt(hd, r.f)).key == Word(r.seen * BLOCK_SIZE)
            && LookupSlot(Word(r.index), Word(r.seen * BLOCK_SIZE), r.f, hd.size)
               == SlotOf(hd.start, hd.size, r.index / BLOCK_SIZE)
  {
    EntrySeen(q, r.h, r.seen);
    LookupFindsSlot(r.index, r.seen, q.headers[r.h].start, q.headers[r.h].size);
  }

  lemma LoadKeyStep(q: Queue, t: Thread)
    requires Inv(q) && ReaderOf(q, t).LoadKey?
    ensures Inv(DoLookup(q, t, ReaderOf(q, t)))
  {
    var r := ReaderOf(q, t);
    LoadKeyPlace(q, t, r);
    var hd := q.headers[r.h];
    LookupStep(q, t, LoadValue(r.h, SlotOf(hd.start, hd.size, r.index / BLOCK_SIZE), r.index, r.end));
  }

  lemma LoadKeyPlace(q: Queue, t: Thread, r: Reader)
    requires Inv(q) && r == ReaderOf(q, t) && r.LoadKey?
    ensures r.h < |q.headers|
    ensures var hd := q.headers[r.h];
            var r' := LoadValue(r.h, SlotOf(hd.start, hd.size, r.index / BLOCK_SIZE), r.index, r.end);
            && PlaceInv(q.headers, q.blockOf, r') && MovesWithin(r, r') && DoLookup(q, t, r) == Goto(q, t, r')
  {
    ReaderFacts(q, t);
    UnmarkedIsOpen(q, t, r.index);
    KeyLeadsToSlot(q, r);
  }

  /** The entry in the claimed block's slot shows the block. */
  lemma SlotShowsBlock(q: Queue, h: nat, slot: int, p: nat)
    requires Inv(q) && Covers(q.headers, h, p, p) && AtSlot(q.headers, h, slot, p)
    requires p < |q.blockOf| && !Dead(q.fates[p])
    ensures EntryAt(q.entries, RefAt(HeaderAt(q.headers, h), slot)) == Entry(Word(p * BLOCK_SIZE), q.blockOf[p])
  {
    EntrySeen(q, h, p);
  }

  lemma LoadValuePlace(q: Queue, t: Thread, r: Reader)
    requires Inv(q) && r == ReaderOf(q, t) && r.LoadValue?
    ensures r.index / BLOCK_SIZE < |q.blockOf|
    ensures var r' := ReadItem(r.h, r.slot, q.blockOf[r.index / BLOCK_SIZE], r.index, r.index, Stop(r.index, r.end), r.end);
            && PlaceInv(q.headers, q.blockOf, r') && MovesWithin(r, r') && DoLookup(q, t, r) == Goto(q, t, r')
  {
    hide ProducerInv, IndexInv, BlocksInv, CellInv, DeliveryInv, DoLookup;
    ReaderFacts(q, t);
    UnmarkedIsOpen(q, t, r.index);
    SlotShowsBlock(q, r.h, r.slot, r.index / BLOCK_SIZE);
    StopIsBlockEndOrEnd(r.index, r.end);
    ValueLoaded(q, t, r, q.blockOf[r.index / BLOCK_SIZE]);
  }

  lemma ValueLoaded(q: Queue, t: Thread, r: Reader, b: Block)
    requires r.LoadValue? && Stop(r.index, r.end) != r.index
    requires EntryAt(q.entries, RefAt(HeaderAt(q.headers, r.h), r.slot)).value == b
    ensures DoLookup(q, t, r) == Goto(q, t, ReadItem(r.h, r.slot, b, r.index, r.index, Stop(r.index, r.end), r.end))
  {
  }

  lemma LoadValueStep(q: Queue, t: Thread)
    requires Inv(q) && ReaderOf(q, t).LoadValue?
    ensures Inv(DoLookup(q, t, ReaderOf(q, t)))
  {
    var r := ReaderOf(q, t);
    LoadValuePlace(q, t, r);
    LookupStep(q, t, ReadItem(r.h, r.slot, q.blockOf[r.index / BLOCK_SIZE], r.index, r.index, Stop(r.index, r.end), r.end));
  }

  // ---------------------------------------------------------------------------
  // Steps of the claim protocol
  // ---------------------------------------------------------------------------

  predicate Claiming(q: Queue, t: Thread) {
    Claims.PcOf(q.claims, t).Claim? && Claims.PcOf(q.claims, t).grant > 0
  }

  lemma OtherPcs(c: Claims.State, e: Claims.Event)
    requires Claims.Enabled(c, e)
    ensures !e.Publish? ==> forall u: Thread :: u != e.t ==> Claims.PcOf(Claims.Do(c, e), u) == Claims.PcOf(c, u)
    ensures e.Publish? ==> forall u: Thread :: Claims.PcOf(Claims.Do(c, e), u) == Claims.PcOf(c, u)
  {
  }

  lemma NeutralReaders(q: Queue, c: Claims.State, t: Thread)
    requires ReadersInv(q) && ReaderOf(q, t).Resting? && c.head == q.claims.head
    requires forall u: Thread :: u != t ==> Claims.PcOf(c, u) == Claims.PcOf(q.claims, u)
    ensures ReadersInv(q.(claims := c))
  {
    var q' := q.(claims := c);
    forall u: Thread
      ensures ReaderInv(q'.headers, q'.blockOf, q'.fates, q'.claims.head, q'.owner, ReaderOf(q', u), u, Claims.PcOf(q'.claims, u))
    {
      ReaderFacts(q, u);
    }
  }

  lemma NeutralEffect(q: Queue, t: Thread, e: Claims.Event)
    requires Claims.Inv(q.claims) && Claims.CanDo(q.claims, e) && !e.Publish? && e.t == t && (e.Step? ==> !Claiming(q, t))
    ensures var c := Claims.Do(q.claims, e);
            && Claims.Inv(c) && c.head == q.claims.head && c.tail == q.claims.tail
            && (forall u: Thread :: u != t ==> Claims.PcOf(c, u) == Claims.PcOf(q.claims, u))
  {
    Claims.InvKept(q.claims, e);
    OtherPcs(q.claims, e);
  }

  /** A step of the claim protocol that takes nothing. */
  lemma NeutralClaimsStep(q: Queue, t: Thread, c: Claims.State)
    requires Inv(q) && ReaderOf(q, t).Resting? && Claims.Inv(c) && c.head == q.claims.head && c.tail == q.claims.tail
    requires forall u: Thread :: u != t ==> Claims.PcOf(c, u) == Claims.PcOf(q.claims, u)
    ensures Inv(q.(claims := c))
  {
    var q' := q.(claims := c);
    NeutralReaders(q, c, t);
    SameFinished(q, q');
    SameWaiting(q, q');
    ProducerUnmoved(q, q');
  }

  /** The indices a claim takes were nobody's and were unread. */
  lemma ClaimKeepsIndices(q: Queue, q': Queue, t: Thread, g: nat)
    requires |q.owner| == q.claims.head && ReaderOf(q, t).Resting? && q.claims.head + g <= |q.items|
    requires q'.owner == q.owner + seq(g, _ => t) && q'.claims.head == q.claims.head + g && q'.items == q.items
    requires q'.readers == q.readers[t := LoadIndex(q.claims.head, q.claims.head + g)]
    ensures Finished(q') == Finished(q) && Waiting(q') == Waiting(q)
  {
    forall i: nat
      ensures (i in Finished(q') <==> i in Finished(q)) && (i in Waiting(q') <==> i in Waiting(q))
    {
      assert i < q.claims.head ==> OwnerOf(q', i) == OwnerOf(q, i);
    }
  }

  lemma ClaimKeepsReaders(q: Queue, q': Queue, t: Thread, g: nat)
    requires ReadersInv(q) && ReaderOf(q, t).Resting? && |q.owner| == q.claims.head && 0 < g < HALF
    requires q'.owner == q.owner + seq(g, _ => t) && q'.claims.head == q.claims.head + g
    requires q'.readers == q.readers[t := LoadIndex(q.claims.head, q.claims.head + g)]
    requires q'.headers == q.headers && q'.blockOf == q.blockOf && q'.fates == q.fates
    requires forall u: Thread :: u != t ==> Claims.PcOf(q'.claims, u) == Claims.PcOf(q.claims, u)
    requires Claims.PcOf(q'.claims, t).Idle?
    ensures ReadersInv(q')
  {
    forall u: Thread
      ensures ReaderInv(q'.headers, q'.blockOf, q'.fates, q'.claims.head, q'.owner, ReaderOf(q', u), u, Claims.PcOf(q'.claims, u))
    {
      ReaderFacts(q, u);
      forall i: nat | Unmarked(ReaderOf(q', u), i) ensures i < q'.claims.head && i < |q'.owner| && q'.owner[i] == u {
        assert u != t ==> i < |q.owner| && q.owner[i] == u;
      }
    }
  }

  lemma ClaimEffect(q: Queue, t: Thread)
    requires Claims.Inv(q.claims) && Claims.CanDo(q.claims, Claims.Step(t)) && Claiming(q, t)
    ensures var q', g := DoClaims(q, t), Claims.PcOf(q.claims, t).grant;
            && q' == q.(claims := q'.claims, owner := q.owner + seq(g, _ => t),
                        readers := q.readers[t := LoadIndex(q.claims.head, q.claims.head + g)])
            && Claims.Inv(q'.claims) && q'.claims.head == q.claims.head + g && q'.claims.tail == q.claims.tail
            && 0 < g < HALF && q.claims.head + g <= q.claims.tail
            && (forall u: Thread :: u != t ==> Claims.PcOf(q'.claims, u) == Claims.PcOf(q.claims, u))
            && Claims.PcOf(q'.claims, t).Idle?
  {
    Claims.InvKept(q.claims, Claims.Step(t));
    Claims.ClaimedRangeIsPublished(q.claims, t);
    OtherPcs(q.claims, Claims.Step(t));
  }

  lemma ClaimedKeepsInv(q: Queue, q': Queue, t: Thread, g: nat)
    requires Inv(q) && ReaderOf(q, t).Resting? && 0 < g < HALF && q.claims.head + g <= q.claims.tail
    requires q' == q.(claims := q'.claims, owner := q.owner + seq(g, _ => t),
                      readers := q.readers[t := LoadIndex(q.claims.head, q.claims.head + g)])
    requires q'.claims.head == q.claims.head + g && q'.claims.tail == q.claims.tail && ReadersInv(q')
    ensures Claims.Inv(q'.claims) ==> Inv(q')
  {
    ClaimKeepsIndices(q, q', t, g);
    FateOwnersKept(q.fates, q.readers, t, ReaderOf(q', t));
    ProducerUnmoved(q, q');
  }

  lemma ClaimStep(q: Queue, t: Thread)
    requires Inv(q) && ReaderOf(q, t).Resting? && Claims.CanDo(q.claims, Claims.Step(t)) && Claiming(q, t)
    ensures Inv(DoClaims(q, t))
  {
    var q', g := DoClaims(q, t), Claims.PcOf(q.claims, t).grant;
    ClaimEffect(q, t);
    ClaimKeepsReaders(q, q', t, g);
    ClaimedKeepsInv(q, q', t, g);
  }

  // ---------------------------------------------------------------------------
  // Reading
  // ---------------------------------------------------------------------------

  /** Where an unmarked index of the block a reader looks at lies. */
  lemma InSameBlock(blockOf: seq<Block>, b: Block, first: nat, stop: nat, end: nat, i: nat)
    requires InBlock(blockOf, b, first, stop, end) && first <= i < stop
    ensures i / BLOCK_SIZE == first / BLOCK_SIZE && LiesIn(i, first / BLOCK_SIZE) && i in IndicesOf(first / BLOCK_SIZE)
  {
  }

  /** Where the reader's next item lies. */
  lemma ReadPlace(q: Queue, t: Thread)
    requires Inv(q) && ReaderOf(q, t).ReadItem?
    ensures var r := ReaderOf(q, t);
            && r.index / BLOCK_SIZE < |q.blockOf| && r.b == q.blockOf[r.index / BLOCK_SIZE]
            && q.fates[r.index / BLOCK_SIZE].Open? && BlockShape(q.counts, q.cells, r.b)
            && r.index in Waiting(q) && r.index < |q.items| && r.index < q.claims.head && OwnerOf(q, r.index) == t
            && CellIn(q.cells, r.b, r.index % BLOCK_SIZE) == Some(q.items[r.index])
  {
    var r := ReaderOf(q, t);
    ReaderFacts(q, t);
    UnmarkedIsOpen(q, t, r.index);
    InSameBlock(q.blockOf, r.b, r.first, r.stop, r.end, r.index);
    assert r.index in Waiting(q);
  }

  /** Taking the item of index i out of its cell. */
  lemma TakingKeepsCells(counts: map<Block, nat>, cells: map<Block, seq<Option<Item>>>, blockOf: seq<Block>, fates: seq<Fate>,
                         finished: set<nat>, items: seq<Item>, waiting: set<nat>, i: nat)
    requires BlocksInv(counts, cells, blockOf, fates, finished) && CellInv(cells, blockOf, items, waiting) && i in waiting
    requires forall j :: j in waiting ==> j / BLOCK_SIZE < |fates| && !fates[j / BLOCK_SIZE].Returned?
    ensures CellInv(CellsWith(cells, blockOf[i / BLOCK_SIZE], i % BLOCK_SIZE, None), blockOf, items, waiting - {i})
    ensures BlocksInv(counts, CellsWith(cells, blockOf[i / BLOCK_SIZE], i % BLOCK_SIZE, None), blockOf, fates, finished)
  {
    var b := blockOf[i / BLOCK_SIZE];
    var cells' := CellsWith(cells, b, i % BLOCK_SIZE, None);
    forall j | j in waiting - {i}
      ensures j < |items| && j / BLOCK_SIZE < |blockOf| && CellIn(cells', blockOf[j / BLOCK_SIZE], j % BLOCK_SIZE) == Some(items[j])
    {
      var p, r := i / BLOCK_SIZE, j / BLOCK_SIZE;
      if p < r { assert blockOf[p] != blockOf[r]; }
      if r < p { assert blockOf[r] != blockOf[p]; }
    }
    forall p: nat | p < |blockOf| && !fates[p].Returned? ensures BlockShape(counts, cells', blockOf[p]) {
      assert BlockShape(counts, cells, blockOf[p]);
    }
  }

  /** A waiting item's block is open. */
  lemma WaitingIsOpen(q: Queue, i: nat)
    requires Inv(q) && i in Waiting(q)
    ensures i / BLOCK_SIZE < |q.fates| && q.fates[i / BLOCK_SIZE].Open?
  {
    assert LiesIn(i, i / BLOCK_SIZE) && i in IndicesOf(i / BLOCK_SIZE);
    assert Unread(ReaderOf(q, OwnerOf(q, i)), i) ==> Unmarked(ReaderOf(q, OwnerOf(q, i)), i) by {
      ReaderFacts(q, OwnerOf(q, i));
    }
    assert i !in Finished(q);
  }

  lemma WaitingInUse(q: Queue)
    requires Inv(q)
    ensures forall i :: i in Waiting(q) ==> i / BLOCK_SIZE < |q.fates| && !q.fates[i / BLOCK_SIZE].Returned?
  {
    forall i | i in Waiting(q) ensures i / BLOCK_SIZE < |q.fates| && !q.fates[i / BLOCK_SIZE].Returned? {
      WaitingIsOpen(q, i);
    }
  }

  lemma OneItemLess(q: Queue, q': Queue, t: Thread, i: nat, r: Reader)
    requires q'.claims == q.claims && q'.owner == q.owner && q'.items == q.items && q'.readers == q.readers[t := r]
    requires i < q.claims.head && OwnerOf(q, i) == t
    requires forall j: nat :: Unread(r, j) <==> Unread(ReaderOf(q, t), j) && j != i
    ensures Waiting(q') == Waiting(q) - {i}
  {
    forall j: nat ensures j in Waiting(q') <==> j in Waiting(q) && j != i {
      assert OwnerOf(q', j) != t ==> ReaderOf(q', OwnerOf(q', j)) == ReaderOf(q, OwnerOf(q, j));
    }
  }

  lemma CellsLeaveStage(q: Queue, q': Queue, b: Block, j: int, c: Option<Item>)
    requires ProducerInv(q) && InUse(q.blockOf, q.fates, b)
    requires q' == q.(cells := CellsWith(q.cells, b, j, c), delivered := q'.delivered, readers := q'.readers)
    ensures ProducerInv(q')
  {
  }

  lemma ReadReaders(q: Queue, t: Thread)
    requires ReadersInv(q) && ReaderOf(q, t).ReadItem?
    ensures ReadersInv(DoReadItem(q, t, ReaderOf(q, t)))
    ensures forall i: nat :: Unmarked(ReaderOf(DoReadItem(q, t, ReaderOf(q, t)), t), i) == Unmarked(ReaderOf(q, t), i)
    ensures forall i: nat :: Unread(ReaderOf(DoReadItem(q, t, ReaderOf(q, t)), t), i) <==>
                               Unread(ReaderOf(q, t), i) && i != ReaderOf(q, t).index
    ensures !Releasing(ReaderOf(DoReadItem(q, t, ReaderOf(q, t)), t))
  {
    var q', r := DoReadItem(q, t, ReaderOf(q, t)), ReaderOf(q, t);
    ReaderFacts(q, t);
    assert OwnsInv(ReaderOf(q', t), t, q.claims.head, q.owner) by {
      forall i: nat | Unmarked(ReaderOf(q', t), i) ensures i < q.claims.head && i < |q.owner| && q.owner[i] == t {
        assert Unmarked(r, i);
      }
    }
    OtherReaders(q, q', t);
  }

  lemma ReadEffect(q: Queue, t: Thread)
    requires Inv(q) && ReaderOf(q, t).ReadItem?
    ensures var q', r := DoReadItem(q, t, ReaderOf(q, t)), ReaderOf(q, t);
            && q' == q.(cells := CellsWith(q.cells, q.blockOf[r.index / BLOCK_SIZE], r.index % BLOCK_SIZE, None),
                        delivered := q.delivered[r.index := q.items[r.index]], readers := q.readers[t := ReaderOf(q', t)])
  {
    ReadPlace(q, t);
    OffsetOfWord(ReaderOf(q, t).index);
  }

  lemma DeliveryKept(head: nat, tail: nat, items: seq<Item>, owner: seq<Thread>, delivered: map<nat, Item>, waiting: set<nat>, i: nat)
    requires DeliveryInv(head, tail, items, owner, delivered, waiting) && i < head
    ensures DeliveryInv(head, tail, items, owner, delivered[i := items[i]], waiting - {i})
  {
  }

  lemma ReadKeepsRest(q: Queue, q': Queue, t: Thread, i: nat, r: Reader)
    requires Inv(q) && i < q.claims.head && OwnerOf(q, i) == t && i in Waiting(q) && i < |q.items| && i / BLOCK_SIZE < |q.blockOf|
    requires forall j :: j in Waiting(q) ==> j / BLOCK_SIZE < |q.fates| && !q.fates[j / BLOCK_SIZE].Returned?
    requires !Releasing(ReaderOf(q, t))
    requires forall j: nat :: Unmarked(r, j) == Unmarked(ReaderOf(q, t), j)
    requires forall j: nat :: Unread(r, j) <==> Unread(ReaderOf(q, t), j) && j != i
    requires q' == q.(cells := CellsWith(q.cells, q.blockOf[i / BLOCK_SIZE], i % BLOCK_SIZE, None),
                      delivered := q.delivered[i := q.items[i]], readers := q.readers[t := r])
    ensures ReadersInv(q') ==> Inv(q')
  {
    OneItemLess(q, q', t, i, r);
    SameFinished(q, q');
    TakingKeepsCells(q.counts, q.cells, q.blockOf, q.fates, Finished(q), q.items, Waiting(q), i);
    FateOwnersKept(q.fates, q.readers, t, r);
    CellsLeaveStage(q, q', q.blockOf[i / BLOCK_SIZE], i % BLOCK_SIZE, None);
    DeliveryKept(q.claims.head, q.claims.tail, q.items, q.owner, q.delivered, Waiting(q), i);
  }

  lemma ReadStep(q: Queue, t: Thread)
    requires Inv(q) && ReaderOf(q, t).ReadItem?
    ensures Inv(DoReadItem(q, t, ReaderOf(q, t)))
  {
    var q', i := DoReadItem(q, t, ReaderOf(q, t)), ReaderOf(q, t).index;
    ReadPlace(q, t);
    ReadEffect(q, t);
    ReadReaders(q, t);
    WaitingInUse(q);
    ReadKeepsRest(q, q', t, i, ReaderOf(q', t));
  }

  // ---------------------------------------------------------------------------
  // Fates
  // ---------------------------------------------------------------------------

  /** The fate of block number p moves on. */
  predicate MovesOn(f: Fate, f': Fate) {
    (f.Open? && f'.Full?) || (f.Full? && f'.Nulled?) || (f.Nulled? && f'.Returned?)
  }

  lemma FateReaders(q: Queue, q': Queue, t: Thread, p: nat)
    requires ReadersInv(q) && p < |q.fates| == |q'.fates| && MovesOn(q.fates[p], q'.fates[p])
    requires q'.fates == q.fates[p := q'.fates[p]]
    requires q.fates[p].Full? || q.fates[p].Nulled? ==> q.fates[p].t == t
    requires q'.headers == q.headers && q'.blockOf == q.blockOf && q'.claims == q.claims && q'.owner == q.owner
    requires forall u: Thread :: u != t ==> ReaderOf(q', u) == ReaderOf(q, u)
    requires ReaderInv(q.headers, q.blockOf, q'.fates, q.claims.head, q.owner, ReaderOf(q', t), t, Claims.PcOf(q.claims, t))
    ensures ReadersInv(q')
  {
    forall u: Thread
      ensures ReaderInv(q'.headers, q'.blockOf, q'.fates, q'.claims.head, q'.owner, ReaderOf(q', u), u, Claims.PcOf(q'.claims, u))
    {
      ReaderFacts(q, u);
    }
  }

  /** Dead blocks stay dead, so the producer may rely on the entries it found free. */
  lemma FateStage(q: Queue, q': Queue, p: nat)
    requires ProducerInv(q) && p < |q.fates| && |q.fates| == |q.blockOf| && |q'.fates| == |q.fates|
    requires q'.fates == q.fates[p := q'.fates[p]] && MovesOn(q.fates[p], q'.fates[p])
    requires q'.producer == q.producer && q'.headers == q.headers && q'.entryOf == q.entryOf
    requires q'.blockOf == q.blockOf && q'.items == q.items && q'.tailBlock == q.tailBlock
    requires q'.cells == q.cells && q'.claims.tail == q.claims.tail
    requires forall r: Ref :: EntryAt(q.entries, r).value == NULL ==> EntryAt(q'.entries, r).value == NULL
    requires forall b: Block :: !InUse(q.blockOf, q.fates, b) && b in q.counts ==> b in q'.counts && q'.counts[b] == q.counts[b]
    ensures ProducerInv(q')
  {
    forall b: Block | InUse(q'.blockOf, q'.fates, b) ensures InUse(q.blockOf, q.fates, b) {
      var r: nat :| r < |q'.blockOf| && r < |q'.fates| && q'.blockOf[r] == b && !q'.fates[r].Returned?;
      assert r < |q.fates| && !q.fates[r].Returned?;
    }
  }

  lemma FateIndex(entries: seq<Entry>, headers: seq<Header>, entryOf: seq<Ref>, blockOf: seq<Block>, fates: seq<Fate>, p: nat, f: Fate)
    requires IndexInv(entries, headers, entryOf, blockOf, fates) && p < |fates| && MovesOn(fates[p], f) && !f.Nulled?
    ensures IndexInv(entries, headers, entryOf, blockOf, fates[p := f])
  {
    if headers != [] {
      forall r: nat | Current(headers).lo <= r < |entryOf| ensures EntryInv(entries, entryOf[r], r, blockOf, fates[p := f]) {
        assert EntryInv(entries, entryOf[r], r, blockOf, fates);
      }
    }
  }

  /** Entries of different block numbers of the current window are different. */
  lemma EntriesDiffer(entries: seq<Entry>, headers: seq<Header>, entryOf: seq<Ref>, blockOf: seq<Block>, fates: seq<Fate>, p: nat, r: nat)
    requires IndexInv(entries, headers, entryOf, blockOf, fates) && headers != []
    requires Current(headers).lo <= p < r < |entryOf|
    ensures entryOf[p] != entryOf[r]
  {
    var hd := Current(headers);
    assert HeaderInv(hd, entryOf);
    SlotsDiffer(hd.start, hd.size, p, r);
    var a, b := SlotOf(hd.start, hd.size, p), SlotOf(hd.start, hd.size, r);
    assert hd.index[a] == entryOf[p] && hd.index[b] == entryOf[r];
    assert if a < b then hd.index[a] != hd.index[b] else hd.index[b] != hd.index[a];
  }

  lemma NullingIndex(entries: seq<Entry>, headers: seq<Header>, entryOf: seq<Ref>, blockOf: seq<Block>, fates: seq<Fate>, p: nat, f: Fate)
    requires IndexInv(entries, headers, entryOf, blockOf, fates) && p < |fates| && p < |entryOf| && f.Nulled? && fates[p].Full?
    requires headers != []
    ensures IndexInv(WithValue(entries, entryOf[p], NULL), headers, entryOf, blockOf, fates[p := f])
  {
    var entries', lo := WithValue(entries, entryOf[p], NULL), Current(headers).lo;
    forall r: nat | lo <= r < |entryOf| ensures EntryInv(entries', entryOf[r], r, blockOf, fates[p := f]) {
      assert EntryInv(entries, entryOf[r], r, blockOf, fates);
      if r < p { EntriesDiffer(entries, headers, entryOf, blockOf, fates, r, p); }
      if p < r { EntriesDiffer(entries, headers, entryOf, blockOf, fates, p, r); }
    }
    assert forall r: Ref :: EntryAt(entries', r).key == EntryAt(entries, r).key;
  }

  // ---------------------------------------------------------------------------
  // Counting a block empty
  // ---------------------------------------------------------------------------

  predicate Between(i: nat, lo: nat, hi: nat) { lo <= i < hi }

  function Range(lo: nat, hi: nat): set<nat> { set i: nat | i < hi && Between(i, lo, hi) }

  lemma {:induction false} RangeSize(lo: nat, hi: nat)
    requires lo <= hi
    ensures |Range(lo, hi)| == hi - lo
    decreases hi - lo
  {
    if lo < hi {
      RangeSize(lo, hi - 1);
      assert Range(lo, hi) == Range(lo, hi - 1) + {hi - 1};
    } else {
      assert Range(lo, hi) == {};
    }
  }

  lemma BlockRange(p: nat)
    ensures IndicesOf(p) == Range(p * BLOCK_SIZE, (p + 1) * BLOCK_SIZE) && |IndicesOf(p)| == BLOCK_SIZE
  {
    forall i: nat ensures LiesIn(i, p) <==> Between(i, p * BLOCK_SIZE, (p + 1) * BLOCK_SIZE) { }
    RangeSize(p * BLOCK_SIZE, (p + 1) * BLOCK_SIZE);
  }

  lemma RangeInBlock(p: nat, lo: nat, hi: nat)
    requires p * BLOCK_SIZE <= lo < hi <= (p + 1) * BLOCK_SIZE
    ensures Range(lo, hi) <= IndicesOf(p)
    ensures forall r: nat :: r != p ==> IndicesOf(r) * Range(lo, hi) == {}
  {
    forall i: nat | i in Range(lo, hi) ensures i in IndicesOf(p) && LiesIn(i, p) { }
  }

  /** The count of block p after indices lo to hi of it are finished; it is full exactly when
      all its indices are. */
  lemma CountAfter(p: nat, finished: set<nat>, lo: nat, hi: nat)
    requires p * BLOCK_SIZE <= lo < hi <= (p + 1) * BLOCK_SIZE && finished * Range(lo, hi) == {}
    ensures |IndicesOf(p) * (finished + Range(lo, hi))| == |IndicesOf(p) * finished| + (hi - lo) <= BLOCK_SIZE
    ensures |IndicesOf(p) * finished| + (hi - lo) == BLOCK_SIZE <==> IndicesOf(p) <= finished + Range(lo, hi)
  {
    var before, after := IndicesOf(p) * finished, IndicesOf(p) * (finished + Range(lo, hi));
    RangeInBlock(p, lo, hi);
    assert after == before + Range(lo, hi) && before * Range(lo, hi) == {};
    RangeSize(lo, hi);
    BlockRange(p);
    SubsetSize(after, IndicesOf(p));
    FullWhenAll(IndicesOf(p), finished + Range(lo, hi));
  }

  lemma FullWhenAll(block: set<nat>, finished: set<nat>)
    ensures |block * finished| == |block| <==> block <= finished
  {
    if |block * finished| == |block| { SubsetSize(block * finished, block); }
    if block <= finished { assert block * finished == block; }
  }

  lemma OtherCounts(p: nat, finished: set<nat>, lo: nat, hi: nat, r: nat)
    requires p * BLOCK_SIZE <= lo < hi <= (p + 1) * BLOCK_SIZE && r != p
    ensures IndicesOf(r) * (finished + Range(lo, hi)) == IndicesOf(r) * finished
    ensures IndicesOf(r) <= finished + Range(lo, hi) <==> IndicesOf(r) <= finished
  {
    RangeInBlock(p, lo, hi);
    assert IndicesOf(r) * (finished + Range(lo, hi)) == IndicesOf(r) * finished + IndicesOf(r) * Range(lo, hi);
    OtherBlockUntouched(r, finished, finished + Range(lo, hi));
  }

  /** The finished indices after t counts its range. */
  lemma MoreFinished(q: Queue, q': Queue, t: Thread, r: Reader)
    requires ReadersInv(q) && ReaderOf(q, t).AddEmpty? && |q.owner| == q.claims.head
    requires q'.claims == q.claims && q'.owner == q.owner && q'.readers == q.readers[t := r]
    requires forall i: nat :: Unmarked(r, i) <==> ReaderOf(q, t).stop <= i < ReaderOf(q, t).end
    ensures var a := ReaderOf(q, t);
            Finished(q') == Finished(q) + Range(a.first, a.stop) && Finished(q) * Range(a.first, a.stop) == {}
  {
    var a := ReaderOf(q, t);
    ReaderFacts(q, t);
    forall i: nat
      ensures i in Finished(q') <==> i in Finished(q) || i in Range(a.first, a.stop)
      ensures i in Range(a.first, a.stop) ==> i !in Finished(q)
    {
      if i in Range(a.first, a.stop) { assert Unmarked(a, i); }
      assert i < q.claims.head && OwnerOf(q, i) != t ==> ReaderOf(q', OwnerOf(q, i)) == ReaderOf(q, OwnerOf(q, i));
    }
  }

  /** Counts and fates after block p's count goes up by a range of its indices. */
  lemma CountingKeepsBlocks(counts: map<Block, nat>, cells: map<Block, seq<Option<Item>>>, blockOf: seq<Block>, fates: seq<Fate>,
                            finished: set<nat>, p: nat, lo: nat, hi: nat, t: Thread)
    requires BlocksInv(counts, cells, blockOf, fates, finished) && FatesInv(fates, finished)
    requires p < |blockOf| && fates[p].Open?
    requires p * BLOCK_SIZE <= lo < hi <= (p + 1) * BLOCK_SIZE && finished * Range(lo, hi) == {}
    ensures var count := CountIn(counts, blockOf[p]) + (hi - lo);
            var finished', counts' := finished + Range(lo, hi), counts[blockOf[p] := count];
            var fates' := if count == BLOCK_SIZE then fates[p := Full(t)] else fates;
            && count <= BLOCK_SIZE && BlocksInv(counts', cells, blockOf, fates', finished') && FatesInv(fates', finished')
  {
    CountAfter(p, finished, lo, hi);
    var count := CountIn(counts, blockOf[p]) + (hi - lo);
    var finished', counts' := finished + Range(lo, hi), counts[blockOf[p] := count];
    var fates' := if count == BLOCK_SIZE then fates[p := Full(t)] else fates;
    forall r: nat | r < |fates| ensures fates'[r].Open? <==> !(IndicesOf(r) <= finished') {
      assert fates[r].Open? <==> !(IndicesOf(r) <= finished);
      if r != p { OtherCounts(p, finished, lo, hi, r); }
    }
    forall r: nat | r < |blockOf| && !fates'[r].Returned?
      ensures BlockShape(counts', cells, blockOf[r]) && CountIn(counts', blockOf[r]) == |IndicesOf(r) * finished'|
    {
      assert BlockShape(counts, cells, blockOf[r]);
      if r != p { OtherCounts(p, finished, lo, hi, r); }
      if r < p { assert blockOf[r] != blockOf[p]; }
      if p < r { assert blockOf[p] != blockOf[r]; }
    }
  }

  lemma OtherBlockUntouched(r: nat, finished: set<nat>, finished': set<nat>)
    requires finished <= finished' && IndicesOf(r) * finished' == IndicesOf(r) * finished
    ensures IndicesOf(r) <= finished' <==> IndicesOf(r) <= finished
  {
    if IndicesOf(r) <= finished' { assert IndicesOf(r) * finished' == IndicesOf(r); }
  }

  /** On to the next block of the range. */
  lemma NextAtSlot(headers: seq<Header>, h: nat, slot: int, p: nat)
    requires AtSlot(headers, h, slot, p) && headers[h].size > 0
    ensures AtSlot(headers, h, Mod(slot + 1, headers[h].size), p + 1)
  {
    NextSlot(headers[h].start, headers[h].size, p);
  }

  lemma StopStartsNextBlock(blockOf: seq<Block>, b: Block, first: nat, stop: nat, end: nat)
    requires InBlock(blockOf, b, first, stop, end) && stop < end
    ensures stop / BLOCK_SIZE == first / BLOCK_SIZE + 1
  {
    DivModUnique(stop, BLOCK_SIZE, first / BLOCK_SIZE + 1, 0);
  }

  lemma NextBlockReached(headers: seq<Header>, blockOf: seq<Block>, h: nat, slot: int, b: Block, first: nat, stop: nat, end: nat)
    requires h < |headers| && headers[h].size > 0 && AtSlot(headers, h, slot, first / BLOCK_SIZE) && InBlock(blockOf, b, first, stop, end)
    requires stop < end ==> Covers(headers, h, stop / BLOCK_SIZE, (end - 1) / BLOCK_SIZE)
    ensures PlaceInv(headers, blockOf, NextBlock(h, slot, stop, end, headers[h].size))
  {
    if stop < end {
      NextAtSlot(headers, h, slot, first / BLOCK_SIZE);
      StopStartsNextBlock(blockOf, b, first, stop, end);
    }
  }

  lemma NextBlockPlace(q: Queue, h: nat, slot: int, b: Block, first: nat, stop: nat, end: nat)
    requires Inv(q) && h < |q.headers| && AtSlot(q.headers, h, slot, first / BLOCK_SIZE) && InBlock(q.blockOf, b, first, stop, end)
    requires stop < end ==> Covers(q.headers, h, stop / BLOCK_SIZE, (end - 1) / BLOCK_SIZE)
    ensures PlaceInv(q.headers, q.blockOf, NextBlock(h, slot, stop, end, q.headers[h].size))
  {
    HeaderFacts(q, h);
    NextBlockReached(q.headers, q.blockOf, h, slot, b, first, stop, end);
  }

  lemma NextBlockIndices(h: nat, slot: int, stop: nat, end: nat, size: nat)
    requires stop <= end
    ensures forall i: nat :: Unmarked(NextBlock(h, slot, stop, end, size), i) <==> stop <= i < end
    ensures forall i: nat :: Unread(NextBlock(h, slot, stop, end, size), i) <==> stop <= i < end
    ensures !Releasing(NextBlock(h, slot, stop, end, size))
  {
  }

  /** What a release step leaves the reader with. */
  lemma ReleasedReader(q: Queue, t: Thread, fates: seq<Fate>, r: Reader, stop: nat, end: nat)
    requires ReadersInv(q) && !ReaderOf(q, t).Resting? && end == ReaderOf(q, t).end && Start(ReaderOf(q, t)) <= stop <= end
    requires forall i: nat :: stop <= i < end ==> Unmarked(ReaderOf(q, t), i)
    requires forall i: nat :: Unmarked(r, i) <==> stop <= i < end
    requires PlaceInv(q.headers, q.blockOf, r) && FateOf(fates, r, t)
    requires !r.Resting? ==> r.end == end && Start(ReaderOf(q, t)) <= Start(r)
    ensures ReaderInv(q.headers, q.blockOf, fates, q.claims.head, q.owner, r, t, Claims.PcOf(q.claims, t))
  {
    ReaderFacts(q, t);
    forall i: nat | Unmarked(r, i) ensures i < q.claims.head && i < |q.owner| && q.owner[i] == t {
      assert Unmarked(ReaderOf(q, t), i);
    }
  }

  lemma AddPlace(q: Queue, t: Thread)
    requires Inv(q) && ReaderOf(q, t).AddEmpty?
    ensures var r := ReaderOf(q, t); var p := r.first / BLOCK_SIZE;
            && p < |q.blockOf| == |q.fates| && r.b == q.blockOf[p] && q.fates[p].Open?
            && p * BLOCK_SIZE <= r.first < r.stop <= (p + 1) * BLOCK_SIZE && r.stop <= r.end
            && PlaceInv(q.headers, q.blockOf, r) && BlockShape(q.counts, q.cells, r.b)
  {
    ReaderFacts(q, t);
    UnmarkedIsOpen(q, t, ReaderOf(q, t).first);
  }

  lemma CountsLeaveStage(q: Queue, q': Queue, b: Block)
    requires ProducerInv(q) && InUse(q.blockOf, q.fates, b)
    requires q' == q.(counts := q.counts[b := CountIn(q'.counts, b)], readers := q'.readers)
    ensures ProducerInv(q')
  {
  }

  /** What the reader is after counting: on its next block, if any. */
  lemma AddSomePlace(q: Queue, t: Thread, a: Reader)
    requires Inv(q) && a == ReaderOf(q, t) && a.AddEmpty?
    ensures var r := NextBlock(a.h, a.slot, a.stop, a.end, HeaderAt(q.headers, a.h).size);
            ReaderInv(q.headers, q.blockOf, q.fates, q.claims.head, q.owner, r, t, Claims.PcOf(q.claims, t))
  {
    AddPlace(q, t);
    NextBlockPlace(q, a.h, a.slot, a.b, a.first, a.stop, a.end);
    NextBlockIndices(a.h, a.slot, a.stop, a.end, q.headers[a.h].size);
    ReleasedReader(q, t, q.fates, NextBlock(a.h, a.slot, a.stop, a.end, q.headers[a.h].size), a.stop, a.end);
  }

  lemma CountingSome(counts: map<Block, nat>, cells: map<Block, seq<Option<Item>>>, blockOf: seq<Block>, fates: seq<Fate>,
                     finished: set<nat>, p: nat, lo: nat, hi: nat, count: nat, finished': set<nat>)
    requires BlocksInv(counts, cells, blockOf, fates, finished) && FatesInv(fates, finished)
    requires p < |blockOf| && fates[p].Open? && count == CountIn(counts, blockOf[p]) + (hi - lo) && count != BLOCK_SIZE
    requires p * BLOCK_SIZE <= lo < hi <= (p + 1) * BLOCK_SIZE && finished * Range(lo, hi) == {}
    requires finished' == finished + Range(lo, hi)
    ensures BlocksInv(counts[blockOf[p] := count], cells, blockOf, fates, finished') && FatesInv(fates, finished')
  {
    CountingKeepsBlocks(counts, cells, blockOf, fates, finished, p, lo, hi, 0);
  }

  /** The blocks after the count went up. */
  lemma AddSomeBlocks(q: Queue, t: Thread, a: Reader)
    requires Inv(q) && a == ReaderOf(q, t) && a.AddEmpty? && NewCount(q, a) != BLOCK_SIZE
    ensures var q' := CountSome(q, t, a);
            BlocksInv(q'.counts, q'.cells, q'.blockOf, q'.fates, Finished(q')) && FatesInv(q'.fates, Finished(q'))
  {
    AddPlace(q, t);
    var q', r := CountSome(q, t, a), NextBlock(a.h, a.slot, a.stop, a.end, HeaderAt(q.headers, a.h).size);
    NextBlockIndices(a.h, a.slot, a.stop, a.end, HeaderAt(q.headers, a.h).size);
    MoreFinished(q, q', t, r);
    CountingSome(q.counts, q.cells, q.blockOf, q.fates, Finished(q), a.first / BLOCK_SIZE, a.first, a.stop, NewCount(q, a), Finished(q'));
  }

  /** The items still to be read after the count went up. */
  lemma AddSomeWaiting(q: Queue, t: Thread, a: Reader)
    requires Inv(q) && a == ReaderOf(q, t) && a.AddEmpty?
    ensures Waiting(CountSome(q, t, a)) == Waiting(q)
  {
    ReaderFacts(q, t);
    NextBlockIndices(a.h, a.slot, a.stop, a.end, HeaderAt(q.headers, a.h).size);
    SameWaiting(q, CountSome(q, t, a));
  }

  /** The rest after the count went up. */
  lemma AddSomeReaders(q: Queue, t: Thread, a: Reader)
    requires Inv(q) && a == ReaderOf(q, t) && a.AddEmpty?
    ensures var q' := CountSome(q, t, a);
            ReadersInv(q') && Waiting(q') == Waiting(q) && FateOwners(q'.fates, q'.readers)
  {
    ReaderFacts(q, t);
    AddSomePlace(q, t, a);
    AddSomeWaiting(q, t, a);
    NextBlockIndices(a.h, a.slot, a.stop, a.end, HeaderAt(q.headers, a.h).size);
    OtherReaders(q, CountSome(q, t, a), t);
    FateOwnersKept(q.fates, q.readers, t, NextBlock(a.h, a.slot, a.stop, a.end, HeaderAt(q.headers, a.h).size));
  }

  lemma AddSomeStage(q: Queue, t: Thread, a: Reader)
    requires Inv(q) && a == ReaderOf(q, t) && a.AddEmpty?
    ensures ProducerInv(CountSome(q, t, a))
  {
    AddPlace(q, t);
    assert InUse(q.blockOf, q.fates, a.b);
    CountsLeaveStage(q, CountSome(q, t, a), a.b);
  }

  /** The count goes up but is not complete. */
  lemma AddSomeStep(q: Queue, t: Thread, a: Reader)
    requires Inv(q) && a == ReaderOf(q, t) && a.AddEmpty? && NewCount(q, a) != BLOCK_SIZE
    ensures Inv(CountSome(q, t, a))
  {
    AddSomeBlocks(q, t, a);
    AddSomeReaders(q, t, a);
    AddSomeStage(q, t, a);
  }

  lemma FateOwnersMoved(fates: seq<Fate>, readers: map<Thread, Reader>, t: Thread, r: Reader, p: nat, f: Fate)
    requires FateOwners(fates, readers) && p < |fates| && FateOwner(f, p, readers[t := r])
    requires t in readers && (Releasing(readers[t]) ==> readers[t].first / BLOCK_SIZE == p)
    ensures FateOwners(fates[p := f], readers[t := r])
  {
    var fates' := fates[p := f];
    forall j: nat | j < |fates'| ensures FateOwner(fates'[j], j, readers[t := r]) {
      assert FateOwner(fates[j], j, readers);
    }
  }

  lemma AddLastPlace(q: Queue, t: Thread, a: Reader, p: nat, r: Reader, fates: seq<Fate>)
    requires Inv(q) && a == ReaderOf(q, t) && a.AddEmpty? && p == a.first / BLOCK_SIZE < |q.fates|
    requires r == NullEntry(a.h, a.slot, a.b, a.first, a.stop, a.end) && fates == q.fates[p := Full(t)]
    ensures ReaderInv(q.headers, q.blockOf, fates, q.claims.head, q.owner, r, t, Claims.PcOf(q.claims, t)) && q.fates[p].Open?
  {
    AddPlace(q, t);
    ReleasedReader(q, t, fates, r, a.stop, a.end);
  }

  lemma AddLastReaders(q: Queue, q': Queue, t: Thread, a: Reader, p: nat, r: Reader)
    requires Inv(q) && a == ReaderOf(q, t) && a.AddEmpty? && p == a.first / BLOCK_SIZE < |q.fates|
    requires r == NullEntry(a.h, a.slot, a.b, a.first, a.stop, a.end)
    requires q' == q.(counts := q'.counts, fates := q.fates[p := Full(t)], readers := q.readers[t := r])
    ensures ReadersInv(q')
  {
    AddLastPlace(q, t, a, p, r, q'.fates);
    FateReaders(q, q', t, p);
  }

  lemma AddLastStage(q: Queue, q': Queue, t: Thread, p: nat, b: Block)
    requires Inv(q) && p < |q.fates| == |q.blockOf| && b == q.blockOf[p] && q.fates[p].Open?
    requires q' == q.(counts := q.counts[b := BLOCK_SIZE], fates := q.fates[p := Full(t)], readers := q'.readers)
    ensures ProducerInv(q')
  {
    assert InUse(q.blockOf, q.fates, b);
    FateStage(q, q', p);
  }

  lemma AddLastBlocks(q: Queue, q': Queue, t: Thread, a: Reader, p: nat, r: Reader)
    requires Inv(q) && a == ReaderOf(q, t) && a.AddEmpty? && p < |q.blockOf| && q.fates[p].Open? && a.b == q.blockOf[p]
    requires p * BLOCK_SIZE <= a.first < a.stop <= (p + 1) * BLOCK_SIZE && p == a.first / BLOCK_SIZE
    requires CountIn(q.counts, a.b) + (a.stop - a.first) == BLOCK_SIZE
    requires r == NullEntry(a.h, a.slot, a.b, a.first, a.stop, a.end)
    requires q' == q.(counts := q.counts[a.b := BLOCK_SIZE], fates := q.fates[p := Full(t)], readers := q.readers[t := r])
    ensures BlocksInv(q'.counts, q'.cells, q'.blockOf, q'.fates, Finished(q')) && FatesInv(q'.fates, Finished(q'))
  {
    hide ProducerInv, IndexInv, BlocksInv, FatesInv, CellInv;
    MoreFinished(q, q', t, r);
    CountingKeepsBlocks(q.counts, q.cells, q.blockOf, q.fates, Finished(q), p, a.first, a.stop, t);
  }

  lemma AddLastOwners(q: Queue, q': Queue, t: Thread, a: Reader, p: nat, r: Reader)
    requires Inv(q) && a == ReaderOf(q, t) && a.AddEmpty? && p < |q.fates| && q.fates[p].Open? && p == a.first / BLOCK_SIZE
    requires r == NullEntry(a.h, a.slot, a.b, a.first, a.stop, a.end)
    requires q' == q.(counts := q'.counts, fates := q.fates[p := Full(t)], readers := q.readers[t := r])
    ensures FateOwners(q'.fates, q'.readers) && Waiting(q') == Waiting(q)
  {
    SameWaiting(q, q');
    FateOwnersMoved(q.fates, q.readers, t, r, p, Full(t));
  }

  /** The count is complete: the block is now this consumer's to give back. */
  lemma AddLastStep(q: Queue, t: Thread, a: Reader)
    requires Inv(q) && a == ReaderOf(q, t) && a.AddEmpty? && NewCount(q, a) == BLOCK_SIZE
    ensures Inv(CountLast(q, t, a))
  {
    AddPlace(q, t);
    var q', p := CountLast(q, t, a), a.first / BLOCK_SIZE;
    var r := NullEntry(a.h, a.slot, a.b, a.first, a.stop, a.end);
    AddLastReaders(q, q', t, a, p, r);
    AddLastBlocks(q, q', t, a, p, r);
    AddLastOwners(q, q', t, a, p, r);
    AddLastStage(q, q', t, p, a.b);
    FateIndex(q.entries, q.headers, q.entryOf, q.blockOf, q.fates, p, Full(t));
  }

  // ---------------------------------------------------------------------------
  // Giving it back
  // ---------------------------------------------------------------------------

  lemma FateMovedBlocks(counts: map<Block, nat>, cells: map<Block, seq<Option<Item>>>, blockOf: seq<Block>, fates: seq<Fate>,
                        finished: set<nat>, p: nat, f: Fate)
    requires BlocksInv(counts, cells, blockOf, fates, finished) && FatesInv(fates, finished)
    requires p < |fates| && MovesOn(fates[p], f) && !fates[p].Open?
    ensures BlocksInv(counts, cells, blockOf, fates[p := f], finished) && FatesInv(fates[p := f], finished)
  {
    forall r: nat | r < |blockOf| && !fates[p := f][r].Returned?
      ensures BlockShape(counts, cells, blockOf[r]) && CountIn(counts, blockOf[r]) == |IndicesOf(r) * finished|
    {
      assert !fates[r].Returned?;
    }
  }

  lemma NullPlace(q: Queue, t: Thread)
    requires Inv(q) && ReaderOf(q, t).NullEntry?
    ensures var a := ReaderOf(q, t); var p := a.first / BLOCK_SIZE;
            && p < |q.fates| == |q.blockOf| && q.fates[p] == Full(t) && q.headers != []
            && a.h < |q.headers| && p < |q.entryOf| && RefAt(q.headers[a.h], a.slot) == q.entryOf[p]
            && PlaceInv(q.headers, q.blockOf, a) && EntryAt(q.entries, q.entryOf[p]) == Entry(Word(p * BLOCK_SIZE), a.b)
  {
    var a := ReaderOf(q, t);
    ReaderFacts(q, t);
    assert Current(q.headers).lo <= a.first / BLOCK_SIZE;
    EntrySeen(q, a.h, a.first / BLOCK_SIZE);
  }

  lemma NullReaders(q: Queue, q': Queue, t: Thread, a: Reader, p: nat, r: Reader)
    requires Inv(q) && a == ReaderOf(q, t) && a.NullEntry? && p == a.first / BLOCK_SIZE < |q.fates|
    requires r == ReturnBlock(a.h, a.slot, a.b, a.first, a.stop, a.end)
    requires q' == q.(entries := q'.entries, fates := q.fates[p := Nulled(t)], readers := q.readers[t := r])
    ensures ReadersInv(q') && Finished(q') == Finished(q) && Waiting(q') == Waiting(q)
    ensures FateOwners(q'.fates, q'.readers)
  {
    NullPlace(q, t);
    ReleasedReader(q, t, q'.fates, r, a.stop, a.end);
    FateReaders(q, q', t, p);
    SameFinished(q, q');
    SameWaiting(q, q');
    FateOwnersMoved(q.fates, q.readers, t, r, p, Nulled(t));
  }

  lemma NullMemory(q: Queue, t: Thread, a: Reader, p: nat)
    requires Inv(q) && a == ReaderOf(q, t) && a.NullEntry? && p == a.first / BLOCK_SIZE < |q.fates|
    ensures var entries' := WithValue(q.entries, RefAt(HeaderAt(q.headers, a.h), a.slot), NULL);
            && IndexInv(entries', q.headers, q.entryOf, q.blockOf, q.fates[p := Nulled(t)])
            && BlocksInv(q.counts, q.cells, q.blockOf, q.fates[p := Nulled(t)], Finished(q))
            && FatesInv(q.fates[p := Nulled(t)], Finished(q)) && q.fates[p].Full?
  {
    NullPlace(q, t);
    FateMovedBlocks(q.counts, q.cells, q.blockOf, q.fates, Finished(q), p, Nulled(t));
    NullingIndex(q.entries, q.headers, q.entryOf, q.blockOf, q.fates, p, Nulled(t));
  }

  lemma NullStage(q: Queue, q': Queue, p: nat, r: Ref, t: Thread)
    requires ProducerInv(q) && p < |q.fates| == |q.blockOf| && q.fates[p].Full?
    requires q' == q.(entries := WithValue(q.entries, r, NULL), fates := q.fates[p := Nulled(t)], readers := q'.readers)
    ensures ProducerInv(q')
  {
    FateStage(q, q', p);
  }

  lemma NullStep(q: Queue, t: Thread, a: Reader)
    requires Inv(q) && a == ReaderOf(q, t) && a.NullEntry?
    ensures Inv(DoNull(q, t, a))
  {
    ReaderFacts(q, t);
    var q', p := DoNull(q, t, a), a.first / BLOCK_SIZE;
    NullMemory(q, t, a, p);
    NullReaders(q, q', t, a, p, ReturnBlock(a.h, a.slot, a.b, a.first, a.stop, a.end));
    NullStage(q, q', p, RefAt(HeaderAt(q.headers, a.h), a.slot), t);
  }

  lemma ReturnReaders(q: Queue, t: Thread, a: Reader)
    requires Inv(q) && a == ReaderOf(q, t) && a.ReturnBlock?
    ensures ReadersInv(DoReturn(q, t, a)) && Finished(DoReturn(q, t, a)) == Finished(q) && Waiting(DoReturn(q, t, a)) == Waiting(q)
    ensures FateOwners(DoReturn(q, t, a).fates, DoReturn(q, t, a).readers)
    ensures a.first / BLOCK_SIZE < |q.fates| == |q.blockOf| && q.fates[a.first / BLOCK_SIZE] == Nulled(t)
  {
    ReaderFacts(q, t);
    var q', p, r := DoReturn(q, t, a), a.first / BLOCK_SIZE, NextBlock(a.h, a.slot, a.stop, a.end, HeaderAt(q.headers, a.h).size);
    NextBlockPlace(q, a.h, a.slot, a.b, a.first, a.stop, a.end);
    NextBlockIndices(a.h, a.slot, a.stop, a.end, q.headers[a.h].size);
    ReleasedReader(q, t, q'.fates, r, a.stop, a.end);
    FateReaders(q, q', t, p);
    SameFinished(q, q');
    SameWaiting(q, q');
    FateOwnersMoved(q.fates, q.readers, t, r, p, Returned);
  }

  lemma ReturnStep(q: Queue, t: Thread, a: Reader)
    requires Inv(q) && a == ReaderOf(q, t) && a.ReturnBlock?
    ensures Inv(DoReturn(q, t, a))
  {
    ReturnReaders(q, t, a);
    var p := a.first / BLOCK_SIZE;
    FateMovedBlocks(q.counts, q.cells, q.blockOf, q.fates, Finished(q), p, Returned);
    FateStage(q, DoReturn(q, t, a), p);
    FateIndex(q.entries, q.headers, q.entryOf, q.blockOf, q.fates, p, Returned);
  }

  /** Every step of a reader keeps the invariant. */
  lemma ReaderStepKeepsInv(q: Queue, t: Thread, r: Reader)
    requires Inv(q) && r == ReaderOf(q, t) && !r.Resting?
    ensures Inv(DoRead(q, t, r))
  {
    match r
    case LoadIndex(_, _) => LoadIndexStep(q, t);
    case LoadIndexTail(_, _, _) => LoadIndexTailStep(q, t);
    case LoadKey(_, _, _, _, _) => LoadKeyStep(q, t);
    case LoadValue(_, _, _, _) => LoadValueStep(q, t);
    case ReadItem(_, _, _, _, _, _, _) => ReadStep(q, t);
    case AddEmpty(_, _, _, _, _, _) => if NewCount(q, r) == BLOCK_SIZE { AddLastStep(q, t, r); } else { AddSomeStep(q, t, r); }
    case NullEntry(_, _, _, _, _, _) => NullStep(q, t, r);
    case ReturnBlock(_, _, _, _, _, _) => ReturnStep(q, t, r);
  }

  /** Every step of a consumer keeps the invariant. */
  lemma ConsumerStepKeepsInv(q: Queue, e: Event)
    requires Inv(q) && CanDo(q, e) && (e.CallDequeue? || e.Consume?)
    ensures Inv(Do(q, e))
  {
    if e.CallDequeue? {
      NeutralEffect(q, e.t, Claims.CallDequeue(e.t, e.kind));
      NeutralClaimsStep(q, e.t, Claims.Do(q.claims, Claims.CallDequeue(e.t, e.kind)));
    } else if !ReaderOf(q, e.t).Resting? {
      ReaderStepKeepsInv(q, e.t, ReaderOf(q, e.t));
    } else if Claiming(q, e.t) {
      ClaimStep(q, e.t);
    } else {
      NeutralEffect(q, e.t, Claims.Step(e.t));
      NeutralClaimsStep(q, e.t, Claims.Do(q.claims, Claims.Step(e.t)));
    }
  }
}
