/** Every step of a consumer keeps the invariant of the explicit producer's queue. */
module ExplicitQueueConsumers {
  import opened Arithmetic
  import opened Collections
  import opened Words
  import opened BlockIndex
  import opened ExplicitQueue
  import opened ExplicitQueueInvariant
  import Claims

  /** Nothing but the readers and the claims differ. */
  predicate SameStore(q: Queue, q': Queue) {
    q' == q.(claims := q'.claims, readers := q'.readers)
  }

  lemma SameIndices(q: Queue, q': Queue)
    requires q'.claims.head == q.claims.head && q'.owner == q.owner && SameStore(q, q')
    requires forall u: Thread, i: nat :: Unmarked(ReaderOf(q', u), i) == Unmarked(ReaderOf(q, u), i)
    requires forall u: Thread, i: nat :: Unread(ReaderOf(q', u), i) == Unread(ReaderOf(q, u), i)
    ensures FlagInv(q) ==> FlagInv(q')
    ensures CellInv(q) ==> CellInv(q')
    ensures DeliveryInv(q) && q'.claims.tail == q.claims.tail ==> DeliveryInv(q')
  {
    if FlagInv(q) {
      forall i: nat | i / BLOCK_SIZE < |q.blockOf|
        ensures if i / BLOCK_SIZE < First(q') then Done(q', i) else (Flag(q', i) <==> Done(q', i))
      {
        assert Done(q', i) == Done(q, i);
        assert i / BLOCK_SIZE < First(q) || Flag(q', i) == Flag(q, i);
      }
    }
    if CellInv(q) {
      forall i: nat ensures Waiting(q', i) == Waiting(q, i) {
        assert Unread(ReaderOf(q', OwnerOf(q, i)), i) == Unread(ReaderOf(q, OwnerOf(q, i)), i);
      }
      CellsKept(q, q');
    }
    if DeliveryInv(q) && q'.claims.tail == q.claims.tail {
      forall i: nat | i < q.claims.head
        ensures if Unread(ReaderOf(q', q'.owner[i]), i) then i !in q'.delivered
                else i in q'.delivered && q'.delivered[i] == q'.items[i]
      {
        assert Unread(ReaderOf(q', q.owner[i]), i) == Unread(ReaderOf(q, q.owner[i]), i);
      }
    }
  }

  lemma OtherReader(q: Queue, q': Queue, u: Thread)
    requires ReaderInv(q, u) && ReaderOf(q', u) == ReaderOf(q, u)
    requires q'.headers == q.headers && q'.blockOf == q.blockOf
    requires q.owner <= q'.owner && |q.owner| == q.claims.head <= q'.claims.head
    requires Claims.PcOf(q.claims, u).Idle? && !ReaderOf(q, u).Resting? ==> Claims.PcOf(q'.claims, u).Idle?
    ensures ReaderInv(q', u)
  {
    var r := ReaderOf(q, u);
    forall i: nat | Unmarked(r, i) ensures i < q'.claims.head && OwnerOf(q', i) == u {
      assert i < q.claims.head && OwnerOf(q, i) == u;
    }
  }

  lemma OtherReaders(q: Queue, q': Queue, t: Thread)
    requires forall u: Thread :: ReaderInv(q, u)
    requires forall u: Thread :: u != t ==> ReaderOf(q', u) == ReaderOf(q, u)
    requires forall u: Thread :: u != t && !ReaderOf(q, u).Resting? && Claims.PcOf(q.claims, u).Idle? ==> Claims.PcOf(q'.claims, u).Idle?
    requires q'.headers == q.headers && q'.blockOf == q.blockOf
    requires q.owner <= q'.owner && |q.owner| == q.claims.head <= q'.claims.head
    ensures forall u: Thread :: u != t ==> ReaderInv(q', u)
  {
    forall u: Thread | u != t ensures ReaderInv(q', u) {
      assert ReaderInv(q, u);
      OtherReader(q, q', u);
    }
  }

  lemma SameLayout(q: Queue, q': Queue)
    requires SameStore(q, q') && q'.claims.tail == q.claims.tail
    ensures RingInv(q) ==> RingInv(q')
    ensures ProducerInv(q) ==> ProducerInv(q')
    ensures IndexInv(q) ==> IndexInv(q')
  {
  }

  /** A step that only moves one reader, within the indices it had. */
  lemma LocalReaderStep(q: Queue, t: Thread, r: Reader)
    requires Inv(q) && !ReaderOf(q, t).Resting? && !r.Resting?
    requires r.end == ReaderOf(q, t).end && Start(r) == Start(ReaderOf(q, t))
    requires forall i: nat :: (Unmarked(r, i) <==> Unmarked(ReaderOf(q, t), i)) && (Unread(r, i) <==> Unread(ReaderOf(q, t), i))
    requires PlaceInv(q.headers, q.blockOf, r)
    ensures Inv(Goto(q, t, r))
  {
    var q' := Goto(q, t, r);
    assert ReaderInv(q, t);
    assert ReaderInv(q', t) by {
        forall i: nat | Unmarked(r, i) ensures i < q'.claims.head && OwnerOf(q', i) == t {
        assert Unmarked(ReaderOf(q, t), i);
      }
    }
    OtherReaders(q, q', t);
    SameIndices(q, q');
    SameLayout(q, q');
  }

  lemma LoadIndexStep(q: Queue, t: Thread)
    requires Inv(q) && ReaderOf(q, t).LoadIndex?
    ensures Inv(DoRead(q, t, ReaderOf(q, t)))
  {
    var r := ReaderOf(q, t);
    assert ReaderInv(q, t);
    assert (r.end - 1) / BLOCK_SIZE < Filled(q);
    assert HeaderInv(Current(q), q.blockOf);
    assert !Done(q, r.index);
    LocalReaderStep(q, t, LoadFront(|q.headers| - 1, r.index, r.end));
  }

  lemma LoadFrontStep(q: Queue, t: Thread)
    requires Inv(q) && ReaderOf(q, t).LoadFront?
    ensures Inv(DoRead(q, t, ReaderOf(q, t)))
  {
    var r := ReaderOf(q, t);
    assert ReaderInv(q, t) && HeaderInv(q.headers[r.h], q.blockOf);
    LocalReaderStep(q, t, LoadBase(r.h, q.headers[r.h].front, q.headers[r.h].hi, r.index, r.end));
  }

  lemma LoadBaseStep(q: Queue, t: Thread)
    requires Inv(q) && ReaderOf(q, t).LoadBase?
    ensures Inv(DoRead(q, t, ReaderOf(q, t)))
  {
    var r := ReaderOf(q, t);
    assert ReaderInv(q, t);
    var hd := q.headers[r.h];
    assert HeaderInv(hd, q.blockOf);
    assert EntryIs(hd, r.seen, q.blockOf);
    LookupFindsSlot(r.index, r.seen, hd.start, hd.size);
    LocalReaderStep(q, t, LoadBlock(r.h, SlotOf(hd.start, hd.size, r.index / BLOCK_SIZE), r.index, r.end));
  }

  lemma LoadBlockStep(q: Queue, t: Thread)
    requires Inv(q) && ReaderOf(q, t).LoadBlock?
    ensures Inv(DoRead(q, t, ReaderOf(q, t)))
  {
    var r := ReaderOf(q, t);
    assert ReaderInv(q, t);
    var hd := q.headers[r.h];
    assert HeaderInv(hd, q.blockOf);
    assert EntryIs(hd, r.index / BLOCK_SIZE, q.blockOf);
    StopIsBlockEndOrEnd(r.index, r.end);
    LocalReaderStep(q, t, ReadItem(r.h, r.slot, q.blockOf[r.index / BLOCK_SIZE], r.index, r.index,
                                   Stop(r.index, r.end), r.end));
  }

  // ---------------------------------------------------------------------------
  // Steps of the claim protocol
  // ---------------------------------------------------------------------------

  predicate Claiming(q: Queue, t: Thread) {
    Claims.PcOf(q.claims, t).Claim? && Claims.PcOf(q.claims, t).grant > 0
  }

  lemma OtherPcs(c: Claims.State, e: Claims.Event)
    requires Claims.Enabled(c, e)
    ensures !e.Publish? ==> forall u: Thread :: u != e.t ==> Claims.PcOf(Claims.Do(c, e), u) == Claims.PcOf(c, u)
    ensures e.Publish? ==> forall u: Thread :: Claims.PcOf(Claims.Do(c, e), u) == Claims.PcOf(c, u)
  {
  }

  /** A step of the claim protocol that takes nothing. */
  lemma NeutralClaimsStep(q: Queue, t: Thread, e: Claims.Event)
    requires Inv(q) && ReaderOf(q, t).Resting? && Claims.CanDo(q.claims, e) && !e.Publish? && e.t == t
    requires e.Step? ==> !Claiming(q, t)
    ensures Inv(q.(claims := Claims.Do(q.claims, e)))
  {
    var c := Claims.Do(q.claims, e);
    var q' := q.(claims := c);
    Claims.InvKept(q.claims, e);
    OtherPcs(q.claims, e);
    assert c.head == q.claims.head && c.tail == q.claims.tail;
    assert ReaderInv(q, t);
    OtherReaders(q, q', t);
    assert ReaderInv(q', t);
    SameIndices(q, q');
    SameLayout(q, q');
  }

  /** The indices a claim takes were nobody's and were unread. */
  lemma ClaimKeepsIndices(q: Queue, q': Queue, t: Thread, g: nat)
    requires DeliveryInv(q) && ReaderOf(q, t).Resting? && q.claims.head + g <= q.claims.tail
    requires SameStore(q, q'.(owner := q.owner))
    requires q'.owner == q.owner + seq(g, _ => t) && q'.claims.head == q.claims.head + g && q'.claims.tail == q.claims.tail
    requires q'.readers == q.readers[t := LoadIndex(q.claims.head, q.claims.head + g)]
    ensures forall i: nat :: Done(q', i) == Done(q, i)
    ensures forall i: nat :: Waiting(q', i) == Waiting(q, i)
    ensures DeliveryInv(q')
  {
    forall i: nat
      ensures Done(q', i) == Done(q, i) && Waiting(q', i) == Waiting(q, i)
    {
      assert i < q.claims.head ==> OwnerOf(q', i) == OwnerOf(q, i);
    }
    forall i: nat | i < q'.claims.head
      ensures if Unread(ReaderOf(q', q'.owner[i]), i) then i !in q'.delivered
              else i in q'.delivered && q'.delivered[i] == q'.items[i]
    {
      if i < q.claims.head { assert q'.owner[i] == q.owner[i]; }
    }
  }

  lemma FlagsKept(q: Queue, q': Queue)
    requires FlagInv(q) && q'.flags == q.flags && q'.blockOf == q.blockOf && q'.slotsUsed == q.slotsUsed
    requires forall i: nat :: Done(q', i) == Done(q, i)
    ensures FlagInv(q')
  {
    forall i: nat | i / BLOCK_SIZE < |q.blockOf|
      ensures if i / BLOCK_SIZE < First(q') then Done(q', i) else (Flag(q', i) <==> Done(q', i))
    {
      assert Done(q', i) == Done(q, i);
      assert i / BLOCK_SIZE < First(q) || Flag(q', i) == Flag(q, i);
    }
  }

  lemma CellsKept(q: Queue, q': Queue)
    requires CellInv(q) && q'.cells == q.cells && q'.blockOf == q.blockOf && q'.items == q.items
    requires forall i: nat :: Waiting(q', i) == Waiting(q, i)
    ensures CellInv(q')
  {
    forall i: nat | Waiting(q', i) ensures i / BLOCK_SIZE < |q'.blockOf| && Cell(q', i) == Some(q'.items[i]) {
      assert Waiting(q, i);
    }
  }

  lemma ClaimKeepsReaders(q: Queue, t: Thread, u: Thread)
    requires Inv(q) && ReaderOf(q, t).Resting? && Claims.CanDo(q.claims, Claims.Step(t)) && Claiming(q, t)
    ensures ReaderInv(DoClaims(q, t), u)
  {
    var q' := DoClaims(q, t);
    Claims.ClaimedRangeIsPublished(q.claims, t);
    OtherPcs(q.claims, Claims.Step(t));
    assert q.owner <= q'.owner;
    OtherReaders(q, q', t);
    if u == t {
      forall i: nat | Unmarked(ReaderOf(q', t), i) ensures i < q'.claims.head && OwnerOf(q', i) == t {
        assert q'.owner[i] == t;
      }
    }
  }

  lemma ClaimKeepsLayout(q: Queue, t: Thread)
    requires Claims.Enabled(q.claims, Claims.Step(t)) && Claiming(q, t)
    ensures var q' := DoClaims(q, t);
            (RingInv(q) ==> RingInv(q')) && (ProducerInv(q) ==> ProducerInv(q')) && (IndexInv(q) ==> IndexInv(q'))
  {
  }

  lemma ClaimStep(q: Queue, t: Thread)
    requires Inv(q) && ReaderOf(q, t).Resting? && Claims.CanDo(q.claims, Claims.Step(t)) && Claiming(q, t)
    ensures Inv(DoClaims(q, t))
  {
    var q', g := DoClaims(q, t), Claims.PcOf(q.claims, t).grant;
    Claims.InvKept(q.claims, Claims.Step(t));
    Claims.ClaimedRangeIsPublished(q.claims, t);
    ClaimKeepsIndices(q, q', t, g);
    FlagsKept(q, q');
    CellsKept(q, q');
    forall u: Thread ensures ReaderInv(q', u) { ClaimKeepsReaders(q, t, u); }
    ClaimKeepsLayout(q, t);
  }

  // ---------------------------------------------------------------------------
  // Reading and marking
  // ---------------------------------------------------------------------------

  /** Two different indices whose blocks are both in the ring live in different places. */
  lemma DifferentPlaces(q: Queue, i: nat, j: nat)
    requires RingInv(q) && i != j
    requires First(q) <= i / BLOCK_SIZE < |q.blockOf| && First(q) <= j / BLOCK_SIZE < |q.blockOf|
    ensures q.blockOf[i / BLOCK_SIZE] != q.blockOf[j / BLOCK_SIZE] || i % BLOCK_SIZE != j % BLOCK_SIZE
  {
    var p, r := i / BLOCK_SIZE, j / BLOCK_SIZE;
    if p < r { assert q.blockOf[p] != q.blockOf[r]; }
    if r < p { assert q.blockOf[r] != q.blockOf[p]; }
  }

  /** An unmarked index lies in the ring, in the block its reader looks at. */
  lemma UnmarkedInRing(q: Queue, t: Thread, i: nat)
    requires Inv(q) && Unmarked(ReaderOf(q, t), i)
    ensures First(q) <= i / BLOCK_SIZE < |q.blockOf| && OwnerOf(q, i) == t && i < q.claims.head
    ensures !Flag(q, i)
  {
    assert ReaderInv(q, t);
    assert !Done(q, i);
  }

  /** q' is q after thread t took the item of index i out of its cell. */
  ghost predicate TookItem(q: Queue, q': Queue, t: Thread, i: nat, r: Reader) {
    && i / BLOCK_SIZE < |q.blockOf| && i < |q.items|
    && var b := q.blockOf[i / BLOCK_SIZE];
    && b in q.cells && |q.cells[b]| == BLOCK_SIZE
    && q' == q.(cells := q.cells[b := q.cells[b][i % BLOCK_SIZE := None]],
                delivered := q.delivered[i := q.items[i]], readers := q.readers[t := r])
    && (forall j: nat :: Unmarked(r, j) == Unmarked(ReaderOf(q, t), j))
    && (forall j: nat :: Unread(r, j) <==> Unread(ReaderOf(q, t), j) && j != i)
  }

  /** q' is q after thread t marked index i empty. */
  ghost predicate MarkedEmpty(q: Queue, q': Queue, t: Thread, i: nat, r: Reader) {
    && i / BLOCK_SIZE < |q.blockOf|
    && var b := q.blockOf[i / BLOCK_SIZE];
    && b in q.flags && |q.flags[b]| == BLOCK_SIZE
    && q' == q.(flags := q.flags[b := q.flags[b][BLOCK_SIZE - 1 - i % BLOCK_SIZE := true]], readers := q.readers[t := r])
    && (forall j: nat :: Unmarked(r, j) <==> Unmarked(ReaderOf(q, t), j) && j != i)
    && (forall j: nat :: Unread(r, j) == Unread(ReaderOf(q, t), j))
  }

  /** A waiting item is in the ring. */
  lemma WaitingInRing(q: Queue, i: nat)
    requires Inv(q) && Waiting(q, i)
    ensures First(q) <= i / BLOCK_SIZE < |q.blockOf|
  {
    assert ReaderInv(q, OwnerOf(q, i));
    assert !Done(q, i);
  }

  lemma SameBlock(first: nat, i: nat, stop: nat)
    requires first <= i < stop <= (first / BLOCK_SIZE + 1) * BLOCK_SIZE
    ensures i / BLOCK_SIZE == first / BLOCK_SIZE
  {
  }

  lemma ShapeInRing(q: Queue, p: nat)
    requires RingInv(q) && First(q) <= p < |q.blockOf|
    ensures BlockShape(q.flags, q.cells, q.blockOf[p])
  {
  }

  /** Where the reader's next item lies. */
  lemma ReadPlace(q: Queue, t: Thread)
    requires Inv(q) && ReaderOf(q, t).ReadItem?
    ensures var r := ReaderOf(q, t);
            && Unread(r, r.index) && r.index / BLOCK_SIZE < |q.blockOf| && r.b == q.blockOf[r.index / BLOCK_SIZE]
            && r.index < |q.items| && CellAt(q, r.b, r.index % BLOCK_SIZE) == Some(q.items[r.index])
            && BlockShape(q.flags, q.cells, r.b)
  {
    var r := ReaderOf(q, t);
    assert PlaceInv(q.headers, q.blockOf, r) by { assert ReaderInv(q, t); }
    SameBlock(r.first, r.index, r.stop);
    UnmarkedInRing(q, t, r.index);
    ShapeInRing(q, r.first / BLOCK_SIZE);
    assert Waiting(q, r.index);
  }

  lemma ReadEffect(q: Queue, t: Thread)
    requires Inv(q) && ReaderOf(q, t).ReadItem?
    ensures var q', i := DoRead(q, t, ReaderOf(q, t)), ReaderOf(q, t).index;
            && TookItem(q, q', t, i, ReaderOf(q', t))
            && CellAt(q, ReaderOf(q, t).b, Word(i) % BLOCK_SIZE) == Some(q.items[i])
  {
    assert ReaderInv(q, t);
    ReadPlace(q, t);
    OffsetOfWord(ReaderOf(q, t).index);
  }

  lemma TakingKeepsCells(q: Queue, q': Queue, t: Thread, i: nat, r: Reader)
    requires Inv(q) && Unread(ReaderOf(q, t), i) && TookItem(q, q', t, i, r)
    ensures CellInv(q')
  {
    assert ReaderInv(q, t);
    UnmarkedInRing(q, t, i);
    forall j: nat | Waiting(q', j) ensures j / BLOCK_SIZE < |q'.blockOf| && Cell(q', j) == Some(q'.items[j]) {
      OthersStillWait(q, q', t, i, r, j);
      WaitingInRing(q, j);
      DifferentPlaces(q, i, j);
      assert Cell(q', j) == Cell(q, j);
    }
  }

  lemma OthersStillWait(q: Queue, q': Queue, t: Thread, i: nat, r: Reader, j: nat)
    requires OwnerOf(q, i) == t && i < q.claims.head && TookItem(q, q', t, i, r) && Waiting(q', j)
    ensures j != i && Waiting(q, j)
  {
    assert OwnerOf(q, j) != t ==> ReaderOf(q', OwnerOf(q, j)) == ReaderOf(q, OwnerOf(q, j));
  }

  lemma TakingKeepsDeliveries(q: Queue, q': Queue, t: Thread, i: nat, r: Reader)
    requires Inv(q) && Unread(ReaderOf(q, t), i) && TookItem(q, q', t, i, r)
    ensures DeliveryInv(q')
  {
    assert ReaderInv(q, t) && Unmarked(ReaderOf(q, t), i);
    forall j: nat | j < q.claims.head
      ensures if Unread(ReaderOf(q', q'.owner[j]), j) then j !in q'.delivered
              else j in q'.delivered && q'.delivered[j] == q'.items[j]
    {
      assert j != i ==> Unread(ReaderOf(q', q.owner[j]), j) == Unread(ReaderOf(q, q.owner[j]), j);
    }
  }

  lemma ShapesKept(q: Queue, q': Queue)
    requires Shapes(q.flags, q.cells, First(q), q.blockOf) && q'.blockOf == q.blockOf && q'.slotsUsed == q.slotsUsed
    requires forall b :: b in q.flags ==> b in q'.flags && |q'.flags[b]| == |q.flags[b]|
    requires forall b :: b in q.cells ==> b in q'.cells && |q'.cells[b]| == |q.cells[b]|
    ensures Shapes(q'.flags, q'.cells, First(q'), q'.blockOf)
  {
    forall p: nat | First(q) <= p < |q.blockOf| ensures BlockShape(q'.flags, q'.cells, q.blockOf[p]) {
      assert BlockShape(q.flags, q.cells, q.blockOf[p]);
    }
  }

  lemma TakingKeepsFlags(q: Queue, q': Queue, t: Thread, i: nat, r: Reader)
    requires FlagInv(q) && TookItem(q, q', t, i, r)
    ensures FlagInv(q')
  {
    forall j: nat ensures Done(q', j) == Done(q, j) {
      assert Unmarked(ReaderOf(q', t), j) == Unmarked(ReaderOf(q, t), j);
    }
    FlagsKept(q, q');
  }

  lemma TakingKeepsRest(q: Queue, q': Queue, t: Thread, i: nat, r: Reader)
    requires Inv(q) && Unread(ReaderOf(q, t), i) && TookItem(q, q', t, i, r)
    ensures RingInv(q') && ProducerInv(q') && IndexInv(q') && FlagInv(q')
  {
    ShapesKept(q, q');
    TakingKeepsFlags(q, q', t, i, r);
  }

  lemma TakingKeepsOthers(q: Queue, q': Queue, t: Thread, i: nat, r: Reader)
    requires Inv(q) && TookItem(q, q', t, i, r)
    ensures forall u: Thread :: u != t ==> ReaderInv(q', u)
  {
    OtherReaders(q, q', t);
  }

  lemma ReadKeepsPlace(q: Queue, t: Thread)
    requires Inv(q) && ReaderOf(q, t).ReadItem?
    ensures ReaderInv(DoRead(q, t, ReaderOf(q, t)), t)
  {
    var q', r := DoRead(q, t, ReaderOf(q, t)), ReaderOf(q, t);
    ReadEffect(q, t);
    assert ReaderInv(q, t);
    forall i: nat | Unmarked(ReaderOf(q', t), i) ensures i < q'.claims.head && OwnerOf(q', i) == t {
      assert Unmarked(r, i);
    }
  }

  lemma ReadStep(q: Queue, t: Thread)
    requires Inv(q) && ReaderOf(q, t).ReadItem?
    ensures Inv(DoRead(q, t, ReaderOf(q, t)))
  {
    var q', r := DoRead(q, t, ReaderOf(q, t)), ReaderOf(q, t);
    assert ReaderInv(q, t);
    ReadEffect(q, t);
    TakingKeepsCells(q, q', t, r.index, ReaderOf(q', t));
    TakingKeepsDeliveries(q, q', t, r.index, ReaderOf(q', t));
    TakingKeepsRest(q, q', t, r.index, ReaderOf(q', t));
    TakingKeepsOthers(q, q', t, r.index, ReaderOf(q', t));
    ReadKeepsPlace(q, t);
  }

  predicate MarkAt(q: Queue, r: Reader) {
    && r.SetEmpty? && r.first < r.k <= r.stop <= r.end
    && (r.k - 1) / BLOCK_SIZE < |q.blockOf| && r.b == q.blockOf[(r.k - 1) / BLOCK_SIZE]
    && BlockShape(q.flags, q.cells, r.b)
  }

  lemma MarkPlace(q: Queue, t: Thread)
    requires Inv(q) && ReaderOf(q, t).SetEmpty?
    ensures MarkAt(q, ReaderOf(q, t))
  {
    var r := ReaderOf(q, t);
    assert PlaceInv(q.headers, q.blockOf, r) by { assert ReaderInv(q, t); }
    SameBlock(r.first, r.k - 1, r.stop);
    UnmarkedInRing(q, t, r.k - 1);
    ShapeInRing(q, r.first / BLOCK_SIZE);
  }

  lemma AfterMarkIndices(r: Reader, size: nat)
    requires r.SetEmpty? && r.first < r.k <= r.stop <= r.end
    ensures forall j: nat :: Unmarked(AfterMark(r, size), j) <==> Unmarked(r, j) && j != r.k - 1
    ensures forall j: nat :: Unread(AfterMark(r, size), j) == Unread(r, j)
  {
  }

  lemma MarkEffect(q: Queue, t: Thread)
    requires MarkAt(q, ReaderOf(q, t))
    ensures var q' := DoRead(q, t, ReaderOf(q, t)); MarkedEmpty(q, q', t, ReaderOf(q, t).k - 1, ReaderOf(q', t))
  {
    AfterMarkIndices(ReaderOf(q, t), HeaderAt(q, ReaderOf(q, t).h).size);
    OffsetOfWord(ReaderOf(q, t).k - 1);
  }

  lemma MarkingKeepsFlags(q: Queue, q': Queue, t: Thread, i: nat, r: Reader)
    requires Inv(q) && Unmarked(ReaderOf(q, t), i) && MarkedEmpty(q, q', t, i, r)
    ensures FlagInv(q')
  {
    UnmarkedInRing(q, t, i);
    forall j: nat | j / BLOCK_SIZE < |q'.blockOf|
      ensures if j / BLOCK_SIZE < First(q') then Done(q', j) else (Flag(q', j) <==> Done(q', j))
    {
      if j != i {
        assert Unmarked(ReaderOf(q', t), j) == Unmarked(ReaderOf(q, t), j);
        assert Done(q', j) == Done(q, j);
        if First(q) <= j / BLOCK_SIZE {
          DifferentPlaces(q, i, j);
          assert Flag(q', j) == Flag(q, j);
        }
      }
    }
  }

  lemma MarkingKeepsRest(q: Queue, q': Queue, t: Thread, i: nat, r: Reader)
    requires Inv(q) && Unmarked(ReaderOf(q, t), i) && MarkedEmpty(q, q', t, i, r)
    ensures CellInv(q') && DeliveryInv(q')
  {
    forall j: nat ensures Waiting(q', j) == Waiting(q, j) {
      assert Unread(ReaderOf(q', OwnerOf(q', j)), j) == Unread(ReaderOf(q, OwnerOf(q, j)), j);
    }
    CellsKept(q, q');
    forall j: nat | j < q.claims.head
      ensures if Unread(ReaderOf(q', q'.owner[j]), j) then j !in q'.delivered
              else j in q'.delivered && q'.delivered[j] == q'.items[j]
    {
      assert Unread(ReaderOf(q', q.owner[j]), j) == Unread(ReaderOf(q, q.owner[j]), j);
    }
  }

  lemma MarkingKeepsRing(q: Queue, q': Queue, t: Thread, i: nat, r: Reader)
    requires RingInv(q) && ProducerInv(q) && IndexInv(q) && MarkedEmpty(q, q', t, i, r)
    ensures RingInv(q') && ProducerInv(q') && IndexInv(q')
  {
    ShapesKept(q, q');
    forall b: Block, j: int | FlagIn(q.flags, b, j) ensures FlagIn(q'.flags, b, j) {}
  }

  lemma MarkingKeepsOthers(q: Queue, q': Queue, t: Thread, i: nat, r: Reader)
    requires Inv(q) && MarkedEmpty(q, q', t, i, r)
    ensures forall u: Thread :: u != t ==> ReaderInv(q', u)
  {
    OtherReaders(q, q', t);
  }

  lemma AfterMarkPlace(headers: seq<Header>, blockOf: seq<Block>, r: Reader)
    requires r.SetEmpty? && PlaceInv(headers, blockOf, r) && headers[r.h].size > 0
    ensures PlaceInv(headers, blockOf, AfterMark(r, headers[r.h].size))
  {
    NextSlot(headers[r.h].start, headers[r.h].size, r.first / BLOCK_SIZE);
    assert r.stop < r.end ==> r.stop / BLOCK_SIZE == r.first / BLOCK_SIZE + 1;
  }

  lemma MarkKeepsPlace(q: Queue, t: Thread)
    requires Inv(q) && ReaderOf(q, t).SetEmpty?
    ensures var q' := DoRead(q, t, ReaderOf(q, t)); PlaceInv(q'.headers, q'.blockOf, ReaderOf(q', t))
  {
    assert ReaderInv(q, t);
    assert HeaderInv(q.headers[ReaderOf(q, t).h], q.blockOf);
    AfterMarkPlace(q.headers, q.blockOf, ReaderOf(q, t));
  }

  lemma MarkKeepsReader(q: Queue, t: Thread)
    requires Inv(q) && ReaderOf(q, t).SetEmpty?
    ensures ReaderInv(DoRead(q, t, ReaderOf(q, t)), t)
  {
    var q' := DoRead(q, t, ReaderOf(q, t));
    assert ReaderInv(q, t);
    MarkPlace(q, t);
    MarkEffect(q, t);
    MarkKeepsPlace(q, t);
    forall i: nat | Unmarked(ReaderOf(q', t), i) ensures i < q'.claims.head && OwnerOf(q', i) == t {
      assert Unmarked(ReaderOf(q, t), i);
    }
  }

  lemma MarkStep(q: Queue, t: Thread)
    requires Inv(q) && ReaderOf(q, t).SetEmpty?
    ensures Inv(DoRead(q, t, ReaderOf(q, t)))
  {
    var q', r := DoRead(q, t, ReaderOf(q, t)), ReaderOf(q, t);
    MarkPlace(q, t);
    MarkEffect(q, t);
    MarkedKeepsInv(q, q', t, r.k - 1, ReaderOf(q', t));
    MarkKeepsReader(q, t);
  }

  lemma MarkedKeepsInv(q: Queue, q': Queue, t: Thread, i: nat, r: Reader)
    requires Inv(q) && Unmarked(ReaderOf(q, t), i) && MarkedEmpty(q, q', t, i, r)
    ensures ReaderInv(q', t) ==> Inv(q')
  {
    MarkingKeepsFlags(q, q', t, i, r);
    MarkingKeepsRing(q, q', t, i, r);
    MarkingKeepsRest(q, q', t, i, r);
    MarkingKeepsOthers(q, q', t, i, r);
  }

  /** Every step of a consumer keeps the invariant. */
  lemma ConsumerStepKeepsInv(q: Queue, e: Event)
    requires Inv(q) && CanDo(q, e) && (e.CallDequeue? || e.Consume?)
    ensures Inv(Do(q, e))
  {
    var r := ReaderOf(q, e.t);
    if e.CallDequeue? { NeutralClaimsStep(q, e.t, Claims.CallDequeue(e.t, e.kind)); }
    else {
      match r
      case Resting => if Claiming(q, e.t) { ClaimStep(q, e.t); } else { NeutralClaimsStep(q, e.t, Claims.Step(e.t)); }
      case LoadIndex(_, _) => LoadIndexStep(q, e.t);
      case LoadFront(_, _, _) => LoadFrontStep(q, e.t);
      case LoadBase(_, _, _, _, _) => LoadBaseStep(q, e.t);
      case LoadBlock(_, _, _, _) => LoadBlockStep(q, e.t);
      case ReadItem(_, _, _, _, _, _, _) => ReadStep(q, e.t);
      case SetEmpty(_, _, _, _, _, _, _) => MarkStep(q, e.t);
    }
  }
}
