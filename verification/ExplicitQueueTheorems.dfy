/** What one explicit producer and any number of consumers guarantee in every run. */
module ExplicitQueueTheorems {
  import opened Arithmetic
  import opened Collections
  import opened Words
  import opened BlockIndex
  import opened ExplicitQueue
  import opened ExplicitQueueInvariant
  import C = ExplicitQueueConsumers
  import P = ExplicitQueueProducer
  import Claims
  import Fifo

  lemma InvKept(q: Queue, e: Event)
    requires Inv(q) && CanDo(q, e)
    ensures Inv(Do(q, e))
  {
    if e.Enqueue? || e.Produce? { P.ProducerStepKeepsInv(q, e); } else { C.ConsumerStepKeepsInv(q, e); }
  }

  ghost predicate StartsConstructed(q: Queue) {
    exists half, indexed :: IsFirstHalf(half) && q == Init(half, indexed)
  }

  ghost predicate IsRun(states: seq<Queue>, events: seq<Event>) {
    && |states| == |events| + 1 && StartsConstructed(states[0])
    && forall i :: 0 <= i < |events| ==> CanDo(states[i], events[i]) && states[i + 1] == Do(states[i], events[i])
  }

  /** Every reachable state is sound, whatever the interleaving, the allocators' answers,
      the growth of the index and the reuse of blocks. */
  lemma {:induction false} EveryReachableStateIsSound(states: seq<Queue>, events: seq<Event>, n: nat)
    requires IsRun(states, events) && n < |states|
    ensures Inv(states[n])
  {
    if n == 0 {
      var half, indexed :| IsFirstHalf(half) && states[0] == Init(half, indexed);
      InvInitially(half, indexed);
    } else {
      EveryReachableStateIsSound(states, events, n - 1);
      InvKept(states[n - 1], events[n - 1]);
    }
  }

  // ---------------------------------------------------------------------------
  // Refinement of a plain FIFO
  // ---------------------------------------------------------------------------

  /** The FIFO operation a step is the linearization point of. */
  function OpOf(q: Queue, e: Event): Fifo.Op {
    if e.Produce? && q.producer.StoreTail? then Fifo.Put(q.producer.item)
    else if e.Consume? && ReaderOf(q, e.t).Resting? && C.Claiming(q, e.t)
    then Fifo.Take(Claims.PcOf(q.claims, e.t).grant)
    else Fifo.Nothing
  }

  /** The queue as its clients see it: published and not yet claimed. */
  function Contents(q: Queue): seq<Item>
    requires q.claims.head <= q.claims.tail <= |q.items|
  {
    q.items[q.claims.head..q.claims.tail]
  }

  lemma ClaimsStepCounts(c: Claims.State, t: Thread)
    requires Claims.Enabled(c, Claims.Step(t))
    ensures var c', p := Claims.Do(c, Claims.Step(t)), Claims.PcOf(c, t);
            c'.tail == c.tail && c'.head == c.head + (if p.Claim? then p.grant else 0)
  {
  }

  lemma StepKeepsItems(q: Queue, e: Event)
    requires CanDo(q, e)
    ensures q.items <= Do(q, e).items
    ensures Do(q, e).claims.tail == q.claims.tail + (if OpOf(q, e).Put? then 1 else 0)
    ensures Do(q, e).claims.head == q.claims.head + (if OpOf(q, e).Take? then OpOf(q, e).count else 0)
  {
    if e.Consume? && ReaderOf(q, e.t).Resting? { ClaimsStepCounts(q.claims, e.t); }
  }

  lemma OpIsPossible(q: Queue, e: Event)
    requires Inv(q) && CanDo(q, e)
    ensures q.claims.head <= q.claims.tail <= |q.items|
    ensures var op := OpOf(q, e);
            && (op.Put? ==> |q.items| == q.claims.tail + 1 && q.items[q.claims.tail] == op.item)
            && (op.Take? ==> op.count <= q.claims.tail - q.claims.head)
  {
    if OpOf(q, e).Take? { Claims.ClaimedRangeIsPublished(q.claims, e.t); }
  }

  /** Every step refines a FIFO operation or changes nothing; a claim never takes more than
      is there. */
  lemma StepRefinesFifo(q: Queue, e: Event)
    requires Inv(q) && CanDo(q, e)
    ensures Inv(Do(q, e))
    ensures OpOf(q, e).Take? ==> OpOf(q, e).count <= |Contents(q)|
    ensures Contents(Do(q, e)) == Fifo.Apply(Contents(q), OpOf(q, e))
  {
    var q' := Do(q, e);
    InvKept(q, e);
    OpIsPossible(q, e);
    StepKeepsItems(q, e);
    Fifo.WindowMoves(q.items, q'.items, q.claims.head, q.claims.tail, q'.claims.head, q'.claims.tail, OpOf(q, e));
  }

  /** The item of the last call of `enqueue` among the first n events. */
  function Given(events: seq<Event>, n: nat): Item
    requires n <= |events|
  {
    if n == 0 then 0 else if events[n - 1].Enqueue? then events[n - 1].item else Given(events, n - 1)
  }

  /** Step k moves `tailIndex`. */
  predicate Publishes(states: seq<Queue>, k: nat) {
    k + 1 < |states| && states[k + 1].claims.tail != states[k].claims.tail
  }

  /** The items that callers gave to `enqueue`, of the calls that published within n steps. */
  function Puts(states: seq<Queue>, events: seq<Event>, n: nat): seq<Item>
    requires n <= |events|
  {
    if n == 0 then []
    else Puts(states, events, n - 1) + if Publishes(states, n - 1) then [Given(events, n - 1)] else []
  }

  /** Where the producer goes next. */
  function After(q: Queue, block: Option<Block>, grown: bool): Producer {
    match q.producer
    case Ready => Ready
    case CheckFlag(x, j) =>
      if !FlagAt(q, Next(q, q.tailBlock), j) then LoadHead(x)
      else if j + 1 < BLOCK_SIZE then CheckFlag(x, j + 1) else StoreBase(x)
    case LoadHead(x) =>
      if !CircularLess(Word(q.claims.head), Word(q.claims.tail + BLOCK_SIZE)) then Ready
      else if q.headers == [] || q.slotsUsed == q.indexSize then GrowIndex(x) else TakeBlock(x)
    case GrowIndex(x) => if grown then TakeBlock(x) else Ready
    case TakeBlock(x) => if block.Some? then StoreBase(x) else Ready
    case StoreBase(x) => StoreBlock(x)
    case StoreBlock(x) => StoreFront(x)
    case StoreFront(x) => StoreItem(x)
    case StoreItem(x) => StoreTail(x)
    case StoreTail(_) => Ready
  }

  lemma ProducerGoesOn(q: Queue, block: Option<Block>, grown: bool)
    requires !q.producer.Ready?
    ensures DoProduce(q, block, grown).producer == After(q, block, grown)
    ensures DoProduce(q, block, grown).claims == if q.producer.StoreTail? then q.claims.(tail := q.claims.tail + 1) else q.claims
  {
    if MakesRoom(q.producer) {
      hide DoProduce, DoMakeRoom, CircularLess;
      RoomSteps(q, block, grown);
    } else if q.producer.StoreItem? || q.producer.StoreTail? {
      hide DoProduce, CircularLess;
      ItemSteps(q, block, grown);
    } else {
      hide DoProduce, CircularLess;
      EntrySteps(q, block, grown);
    }
  }

  lemma ItemSteps(q: Queue, block: Option<Block>, grown: bool)
    requires q.producer.StoreItem? || q.producer.StoreTail?
    ensures DoProduce(q, block, grown).producer == After(q, block, grown)
    ensures DoProduce(q, block, grown).claims == if q.producer.StoreTail? then q.claims.(tail := q.claims.tail + 1) else q.claims
  {
    hide DoMakeRoom, DoStoreEntry, CircularLess;
  }

  lemma EntrySteps(q: Queue, block: Option<Block>, grown: bool)
    requires q.producer.StoreBase? || q.producer.StoreBlock? || q.producer.StoreFront?
    ensures DoProduce(q, block, grown).producer == After(q, block, grown)
    ensures DoProduce(q, block, grown).claims == q.claims
  {
    hide WithBase, WithBlock, WithFront, DoMakeRoom, DoStoreItem, CircularLess;
  }

  lemma RoomSteps(q: Queue, block: Option<Block>, grown: bool)
    requires MakesRoom(q.producer)
    ensures DoProduce(q, block, grown).producer == After(q, block, grown)
    ensures DoProduce(q, block, grown).claims == q.claims
  {
    hide NewBlockIndex, ReuseBlock, InsertBlock, CircularLess, DoStoreItem, DoStoreEntry;
  }

  lemma StepCarriesItem(q: Queue, e: Event)
    requires Possible(q, e)
    ensures var p, p' := q.producer, Do(q, e).producer;
            if e.Enqueue? then !p'.Ready? ==> p'.item == e.item else !p'.Ready? ==> !p.Ready? && p'.item == p.item
  {
    match e
    case Enqueue(_) =>
    case Produce(block, grown) => hide DoProduce; ProduceCarriesItem(q, block, grown);
    case CallDequeue(_, _) =>
    case Consume(t) => hide DoRead, DoClaims; ConsumeLeavesProducer(q, t);
  }

  lemma ProduceCarriesItem(q: Queue, block: Option<Block>, grown: bool)
    requires !q.producer.Ready?
    ensures var p' := DoProduce(q, block, grown).producer; !p'.Ready? ==> p'.item == q.producer.item
  {
    ProducerGoesOn(q, block, grown);
  }

  lemma ConsumeLeavesProducer(q: Queue, t: Thread)
    requires Possible(q, Consume(t))
    ensures Do(q, Consume(t)).producer == q.producer && Do(q, Consume(t)).claims.tail == q.claims.tail
  {
    if ReaderOf(q, t).Resting? { ClaimsStepCounts(q.claims, t); }
  }

  /** What the producer works on is what its caller gave it. */
  lemma {:induction false} CarriesGivenItem(states: seq<Queue>, events: seq<Event>, n: nat)
    requires IsRun(states, events) && n <= |events|
    ensures !states[n].producer.Ready? ==> states[n].producer.item == Given(events, n)
  {
    hide Possible, Do, CanDo;
    if n == 0 {
      StartsReady(states[0]);
    } else {
      CarriesGivenItem(states, events, n - 1);
      IsPossible(states[n - 1], events[n - 1]);
      StepCarriesItem(states[n - 1], events[n - 1]);
    }
  }

  lemma IsPossible(q: Queue, e: Event)
    requires CanDo(q, e)
    ensures Possible(q, e)
  {
  }

  lemma StartsReady(q: Queue)
    requires StartsConstructed(q)
    ensures q.producer.Ready? && q.claims == Claims.INIT
  {
  }

  function Published(q: Queue): seq<Item> { if q.claims.tail <= |q.items| then q.items[..q.claims.tail] else [] }

  function ItemOf(p: Producer): Item { if p.Ready? then 0 else p.item }

  lemma PublishingStep(q: Queue, e: Event)
    requires Inv(q) && CanDo(q, e)
    ensures Do(q, e).claims.tail != q.claims.tail ==> q.producer.StoreTail?
    ensures Published(Do(q, e)) == Published(q) + if Do(q, e).claims.tail != q.claims.tail then [ItemOf(q.producer)] else []
  {
    hide Inv, Do, CanDo, Possible, Fifo.Apply;
    IsPossible(q, e);
    var q' := Do(q, e);
    OpIsPossible(q, e);
    StepKeepsItems(q, e);
    Fifo.WindowMoves(q.items, q'.items, q.claims.head, q.claims.tail, q'.claims.head, q'.claims.tail, OpOf(q, e));
  }

  lemma PublishedItemsAreThePuts(states: seq<Queue>, events: seq<Event>, n: nat)
    requires IsRun(states, events) && n <= |events|
    ensures Inv(states[n]) && states[n].items[..states[n].claims.tail] == Puts(states, events, n)
  {
    EveryReachableStateIsSound(states, events, n);
    PublishedArePuts(states, events, n);
  }

  lemma RunStep(states: seq<Queue>, events: seq<Event>, k: nat)
    requires IsRun(states, events) && k < |events|
    ensures |states| == |events| + 1 && CanDo(states[k], events[k]) && states[k + 1] == Do(states[k], events[k])
  {
  }

  lemma NothingAtFirst(states: seq<Queue>, events: seq<Event>)
    requires IsRun(states, events)
    ensures Published(states[0]) == []
  {
    StartsReady(states[0]);
  }

  lemma {:induction false} PublishedArePuts(states: seq<Queue>, events: seq<Event>, n: nat)
    requires IsRun(states, events) && n <= |events|
    ensures Published(states[n]) == Puts(states, events, n)
  {
    hide Inv, Do, CanDo, Published, IsRun;
    if n == 0 {
      NothingAtFirst(states, events);
    } else {
      RunStep(states, events, n - 1);
      PublishedArePuts(states, events, n - 1);
      EveryReachableStateIsSound(states, events, n - 1);
      CarriesGivenItem(states, events, n - 1);
      PublishingStep(states[n - 1], events[n - 1]);
    }
  }

  // ---------------------------------------------------------------------------
  // Delivery
  // ---------------------------------------------------------------------------

  /** The item read for claimed index i is the i-th item put in, read for the first time. */
  lemma ReadDeliversTheClaimedItem(q: Queue, t: Thread)
    requires Inv(q) && ReaderOf(q, t).ReadItem?
    ensures var i := ReaderOf(q, t).index;
            && i < q.claims.head && i < |q.items| && OwnerOf(q, i) == t && i !in q.delivered
            && DoRead(q, t, ReaderOf(q, t)).delivered == q.delivered[i := q.items[i]]
  {
    assert ReaderInv(q, t);
    C.ReadPlace(q, t);
    C.ReadEffect(q, t);
    assert Unmarked(ReaderOf(q, t), ReaderOf(q, t).index);
  }

  ghost predicate Quiescent(q: Queue) { forall t: Thread :: ReaderOf(q, t).Resting? }

  /** First in, first out, each exactly once: in every run, whenever no claimed item is still
      being read, the items delivered so far are, index by index, the first `headIndex`
      items put in. */
  lemma DeliveriesAreTheFirstPuts(states: seq<Queue>, events: seq<Event>, n: nat)
    requires IsRun(states, events) && n <= |events| && Quiescent(states[n])
    ensures var q, puts := states[n], Puts(states, events, n);
            && q.claims.head <= |puts|
            && (forall i: nat :: i in q.delivered <==> i < q.claims.head)
            && (forall i: nat :: i < q.claims.head ==> q.delivered[i] == puts[i])
  {
    PublishedItemsAreThePuts(states, events, n);
    var q := states[n];
    forall i: nat | i < q.claims.head ensures i in q.delivered && q.delivered[i] == q.items[i] {
      assert !Unread(ReaderOf(q, q.owner[i]), i);
    }
  }

  /** At every moment of a run, reads in flight or not, what has been delivered for an index is
      the item put in at that place. */
  lemma DeliveredIsWhatWasPut(states: seq<Queue>, events: seq<Event>, n: nat, i: nat)
    requires IsRun(states, events) && n <= |events| && i in states[n].delivered
    ensures i < states[n].claims.head && i < |Puts(states, events, n)|
    ensures states[n].delivered[i] == Puts(states, events, n)[i]
  {
    PublishedItemsAreThePuts(states, events, n);
  }

  /** Step k of the run reads the item of index i. */
  predicate Reads(states: seq<Queue>, events: seq<Event>, k: nat, i: nat) {
    k < |events| && k < |states| && events[k].Consume? &&
    ReaderOf(states[k], events[k].t).ReadItem? && ReaderOf(states[k], events[k].t).index == i
  }

  /** A delivery is never taken back. */
  lemma StepKeepsDeliveries(q: Queue, e: Event, i: nat)
    requires Inv(q) && CanDo(q, e)
    ensures i in q.delivered ==> i in Do(q, e).delivered
    ensures e.Consume? && ReaderOf(q, e.t).ReadItem? && ReaderOf(q, e.t).index == i ==> i !in q.delivered && i in Do(q, e).delivered
  {
    if e.Consume? && ReaderOf(q, e.t).ReadItem? { ReadDeliversTheClaimedItem(q, e.t); } else { OthersKeepDeliveries(q, e); }
  }

  lemma OthersKeepDeliveries(q: Queue, e: Event)
    requires CanDo(q, e) && !(e.Consume? && ReaderOf(q, e.t).ReadItem?)
    ensures Do(q, e).delivered == q.delivered
  {
    match e
    case Enqueue(_) =>
    case Produce(block, grown) => ProduceKeepsDeliveries(q, block, grown);
    case CallDequeue(_, _) =>
    case Consume(t) => if !ReaderOf(q, t).Resting? { OtherReadsKeepDeliveries(q, t, ReaderOf(q, t)); }
  }

  lemma ProduceKeepsDeliveries(q: Queue, block: Option<Block>, grown: bool)
    ensures DoProduce(q, block, grown).delivered == q.delivered
  {
    if q.producer.StoreItem? || q.producer.StoreTail? { StoreKeepsDeliveries(q); }
  }

  lemma StoreKeepsDeliveries(q: Queue)
    ensures DoStoreItem(q).delivered == q.delivered
  {
    hide Claims.Do;
  }

  lemma OtherReadsKeepDeliveries(q: Queue, t: Thread, r: Reader)
    requires !r.ReadItem? && !r.Resting?
    ensures DoRead(q, t, r).delivered == q.delivered
  {
  }

  lemma DeliveredAfterStep(states: seq<Queue>, events: seq<Event>, k: nat, i: nat)
    requires IsRun(states, events) && k < |events| && (i in states[k].delivered || Reads(states, events, k, i))
    ensures i in states[k + 1].delivered
    ensures Reads(states, events, k, i) ==> i !in states[k].delivered
  {
    EveryReachableStateIsSound(states, events, k);
    StepKeepsDeliveries(states[k], events[k], i);
  }

  lemma {:induction false} StaysDelivered(states: seq<Queue>, events: seq<Event>, j: nat, k: nat, i: nat)
    requires IsRun(states, events) && j <= k < |states| && i in states[j].delivered
    ensures i in states[k].delivered
  {
    if j == k {
    } else {
      StaysDelivered(states, events, j, k - 1, i);
      DeliveredAfterStep(states, events, k - 1, i);
    }
  }

  /** No index is read twice in a run. */
  lemma NoIndexReadTwice(states: seq<Queue>, events: seq<Event>, j: nat, k: nat, i: nat)
    requires IsRun(states, events) && j < k && Reads(states, events, j, i)
    ensures !Reads(states, events, k, i)
  {
    if Reads(states, events, k, i) {
      DeliveredAfterStep(states, events, j, i);
      StaysDelivered(states, events, j + 1, k, i);
      DeliveredAfterStep(states, events, k, i);
    }
  }

  /** With no dequeue in flight at all, nothing published is out of the consumers' reach. */
  lemma NothingStranded(q: Queue)
    requires Inv(q) && Claims.Quiescent(q.claims)
    ensures q.claims.optimistic - q.claims.overcommit == q.claims.head <= q.claims.tail
    ensures forall i: nat :: q.claims.head <= i < q.claims.tail ==>
              Waiting(q, i) && i / BLOCK_SIZE < |q.blockOf| && Cell(q, i) == Some(q.items[i])
  {
    Claims.QuiescentCountersAgree(q.claims);
    forall i: nat | q.claims.head <= i < q.claims.tail ensures Waiting(q, i) {}
  }

  // ---------------------------------------------------------------------------
  // Nothing is pulled from under a reader
  // ---------------------------------------------------------------------------

  predicate By(e: Event, t: Thread) { (e.CallDequeue? || e.Consume?) && e.t == t }

  lemma OthersLeaveReader(q: Queue, e: Event, t: Thread)
    requires CanDo(q, e) && !By(e, t)
    ensures ReaderOf(Do(q, e), t) == ReaderOf(q, t)
    ensures q.blockOf <= Do(q, e).blockOf && q.items <= Do(q, e).items
    ensures |q.headers| <= |Do(q, e).headers|
  {
  }

  /** While a claimed slot is not marked empty, nobody else resets or reuses its block, marks
      it, or overwrites an item still to be read. */
  lemma ClaimedSlotIsSafe(q: Queue, e: Event, t: Thread, i: nat)
    requires Inv(q) && CanDo(q, e) && !By(e, t) && Unmarked(ReaderOf(q, t), i)
    ensures var q' := Do(q, e);
            && Inv(q') && First(q) <= i / BLOCK_SIZE < |q.blockOf| <= |q'.blockOf|
            && First(q') <= i / BLOCK_SIZE && q'.blockOf[i / BLOCK_SIZE] == q.blockOf[i / BLOCK_SIZE]
            && !Flag(q, i) && !Flag(q', i)
            && (Unread(ReaderOf(q, t), i) ==> i < |q.items| && Cell(q', i) == Cell(q, i) == Some(q.items[i]))
  {
    var q' := Do(q, e);
    InvKept(q, e);
    OthersLeaveReader(q, e, t);
    C.UnmarkedInRing(q, t, i);
    C.UnmarkedInRing(q', t, i);
    if Unread(ReaderOf(q, t), i) {
      assert Waiting(q, i) && Waiting(q', i);
    }
  }

  lemma PlaceSeesEntry(hs: seq<Header>, blockOf: seq<Block>, h: nat, p: nat)
    requires HeadersInv(hs, blockOf) && Covers(hs, h, p, p)
    ensures var hd := hs[h]; var slot := SlotOf(hd.start, hd.size, p);
            p < |blockOf| && BaseAt(hd, slot) == Word(p * BLOCK_SIZE) && BlockAt(hd, slot) == blockOf[p]
  {
    assert HeaderInv(hs[h], blockOf);
    assert EntryIs(hs[h], p, blockOf);
  }

  lemma HeaderShapeKept(q: Queue, h: nat)
    requires h < |q.headers|
    ensures var q' := DoStoreEntry(q);
            h < |q'.headers| && q'.headers[h].start == q.headers[h].start && q'.headers[h].size == q.headers[h].size
  {
  }

  lemma HeaderShapesKept(q: Queue, e: Event, h: nat)
    requires CanDo(q, e) && h < |q.headers|
    ensures var q' := Do(q, e);
            h < |q'.headers| && q'.headers[h].start == q.headers[h].start && q'.headers[h].size == q.headers[h].size
  {
    HeaderShapeKept(q, h);
  }

  /** The header a reader holds keeps its shape and still covers what it is about to look at. */
  lemma HeldHeaderCovers(q: Queue, e: Event, t: Thread)
    requires Inv(q) && CanDo(q, e) && !By(e, t) && ReaderOf(q, t).LoadBase?
    ensures var r, q' := ReaderOf(q, t), Do(q, e);
            && HeadersInv(q'.headers, q'.blockOf) && q.blockOf <= q'.blockOf
            && r.index / BLOCK_SIZE <= r.seen
            && Covers(q.headers, r.h, r.index / BLOCK_SIZE, r.seen) && Covers(q'.headers, r.h, r.index / BLOCK_SIZE, r.seen)
            && q'.headers[r.h].start == q.headers[r.h].start && q'.headers[r.h].size == q.headers[r.h].size
            && r.f == SlotOf(q.headers[r.h].start, q.headers[r.h].size, r.seen)
  {
    InvKept(q, e);
    OthersLeaveReader(q, e, t);
    assert ReaderInv(q, t) && ReaderInv(Do(q, e), t);
    HeaderShapesKept(q, e, ReaderOf(q, t).h);
  }

  /** Neither the front entry a consumer has observed nor the entry that finds its claimed
      block changes under it, even if the producer laps the ring or publishes a larger
      index meanwhile. */
  lemma ObservedEntriesAreStable(q: Queue, e: Event, t: Thread)
    requires Inv(q) && CanDo(q, e) && !By(e, t) && ReaderOf(q, t).LoadBase?
    ensures var r, q' := ReaderOf(q, t), Do(q, e);
            && r.h < |q.headers| && r.h < |q'.headers| && r.index / BLOCK_SIZE < |q.blockOf|
            && var hd, hd' := q.headers[r.h], q'.headers[r.h];
            && BaseAt(hd', r.f) == BaseAt(hd, r.f)
            && var slot := SlotOf(hd.start, hd.size, r.index / BLOCK_SIZE);
            && BlockAt(hd', slot) == BlockAt(hd, slot) == q.blockOf[r.index / BLOCK_SIZE]
  {
    var r, q' := ReaderOf(q, t), Do(q, e);
    HeldHeaderCovers(q, e, t);
    PlaceSeesEntry(q.headers, q.blockOf, r.h, r.seen);
    PlaceSeesEntry(q'.headers, q'.blockOf, r.h, r.seen);
    PlaceSeesEntry(q.headers, q.blockOf, r.h, r.index / BLOCK_SIZE);
    PlaceSeesEntry(q'.headers, q'.blockOf, r.h, r.index / BLOCK_SIZE);
  }

  /** In every run, the index as the producer has built, overwritten and grown it: every header,
      old or current, names base and block of every block number it covers, in the slot that
      lookup computes, and the current one covers the whole ring. */
  lemma IndexHoldsTheRing(states: seq<Queue>, events: seq<Event>, n: nat, h: nat, p: nat)
    requires IsRun(states, events) && n < |states| && h < |states[n].headers|
    ensures var q := states[n]; var hd := q.headers[h];
            && IsCapacity(hd.size)
            && (hd.lo <= p <= hd.hi ==>
                  && p < |q.blockOf| && BaseAt(hd, SlotOf(hd.start, hd.size, p)) == Word(p * BLOCK_SIZE)
                  && BlockAt(hd, SlotOf(hd.start, hd.size, p)) == q.blockOf[p])
            && (h == |q.headers| - 1 && First(q) <= p < Filled(q) ==> hd.lo <= p <= hd.hi)
  {
    EveryReachableStateIsSound(states, events, n);
    var q := states[n];
    assert HeaderInv(q.headers[h], q.blockOf);
    if q.headers[h].lo <= p <= q.headers[h].hi {
      PlaceSeesEntry(q.headers, q.blockOf, h, p);
    }
  }

  /** The slot a consumer computes from the front it observed holds the block of its index. */
  lemma LookupFindsBlock(q: Queue, t: Thread)
    requires Inv(q) && ReaderOf(q, t).LoadBase?
    ensures var r := ReaderOf(q, t);
            && r.h < |q.headers| && r.index / BLOCK_SIZE < |q.blockOf|
            && var hd := q.headers[r.h];
            && IsCapacity(hd.size)
            && var slot := LookupSlot(Word(r.index), BaseAt(hd, r.f), r.f, hd.size);
            && BaseAt(hd, slot) == BlockBase(Word(r.index)) && BlockAt(hd, slot) == q.blockOf[r.index / BLOCK_SIZE]
  {
    var r := ReaderOf(q, t);
    assert ReaderInv(q, t) && HeaderInv(q.headers[r.h], q.blockOf);
    PlaceSeesEntry(q.headers, q.blockOf, r.h, r.seen);
    PlaceSeesEntry(q.headers, q.blockOf, r.h, r.index / BLOCK_SIZE);
    LookupFindsSlot(r.index, r.seen, q.headers[r.h].start, q.headers[r.h].size);
    BlockBaseOfWord(r.index);
  }

  /** Once the slot is computed, its entry stays until the consumer has loaded the block. */
  lemma ComputedEntryIsStable(q: Queue, e: Event, t: Thread)
    requires Inv(q) && CanDo(q, e) && !By(e, t) && ReaderOf(q, t).LoadBlock?
    ensures var r, q' := ReaderOf(q, t), Do(q, e);
            && r.h < |q.headers| && r.h < |q'.headers| && r.index / BLOCK_SIZE < |q.blockOf|
            && BlockAt(q'.headers[r.h], r.slot) == BlockAt(q.headers[r.h], r.slot) == q.blockOf[r.index / BLOCK_SIZE]
  {
    var r, q' := ReaderOf(q, t), Do(q, e);
    InvKept(q, e);
    OthersLeaveReader(q, e, t);
    assert ReaderInv(q, t) && ReaderInv(q', t);
    HeaderShapesKept(q, e, r.h);
    PlaceSeesEntry(q.headers, q.blockOf, r.h, r.index / BLOCK_SIZE);
    PlaceSeesEntry(q'.headers, q'.blockOf, r.h, r.index / BLOCK_SIZE);
  }

  /** Going on to the next block, a bulk dequeue steps to the slot that holds it. */
  lemma WalkFindsNextBlock(q: Queue, t: Thread)
    requires Inv(q) && CanDo(q, Consume(t)) && ReaderOf(q, t).SetEmpty? && ReaderOf(Do(q, Consume(t)), t).LoadBlock?
    ensures var r, q' := ReaderOf(q, t), Do(q, Consume(t)); var r' := ReaderOf(q', t);
            && r'.h == r.h < |q.headers| && r'.index == r.stop && r.stop / BLOCK_SIZE < |q.blockOf|
            && r'.slot == Mod(r.slot + 1, q.headers[r.h].size)
            && BlockAt(q.headers[r.h], r'.slot) == q.blockOf[r.stop / BLOCK_SIZE]
  {
    var q' := Do(q, Consume(t));
    InvKept(q, Consume(t));
    assert ReaderInv(q, t) && ReaderInv(q', t);
    PlaceSeesEntry(q'.headers, q'.blockOf, ReaderOf(q', t).h, ReaderOf(q', t).index / BLOCK_SIZE);
  }

  /** Lapping: the slot the producer is about to overwrite is no ring block's. */
  lemma LapSparesTheRing(q: Queue, p: nat)
    requires Inv(q) && q.producer.StoreBase? && First(q) <= p < Filled(q)
    ensures q.headers != [] && SlotOf(Current(q).start, Current(q).size, p) != q.indexFront
  {
    SlotsDiffer(Current(q).start, Current(q).size, p, Filled(q));
  }

  lemma CurrentSeesRing(q: Queue, p: nat)
    requires Inv(q) && q.headers != [] && First(q) <= p < Filled(q)
    ensures var hd := Current(q); var slot := SlotOf(hd.start, hd.size, p);
            && hd.size == q.indexSize && q.indexFront == SlotOf(hd.start, hd.size, Filled(q))
            && p < |q.blockOf| && BaseAt(hd, slot) == Word(p * BLOCK_SIZE) && BlockAt(hd, slot) == q.blockOf[p]
  {
    PlaceSeesEntry(q.headers, q.blockOf, |q.headers| - 1, p);
  }

  lemma GrowthAppendsHeader(q: Queue)
    requires q.producer.GrowIndex?
    ensures var q' := DoProduce(q, None, true);
            && |q'.headers| == |q.headers| + 1 && q'.headers[..|q.headers|] == q.headers
            && q'.indexSize == 2 * q.indexSize && q'.blockOf == q.blockOf && q'.slotsUsed == q.slotsUsed
            && First(q') == First(q) && Filled(q') == Filled(q) == |q.blockOf|
  {
  }

  /** Growth doubles the capacity, leaves the old headers as they are, and keeps the base and
      the block of every block number the old index had in use. */
  lemma GrowthKeepsEntries(q: Queue, p: nat)
    requires Inv(q) && CanDo(q, Produce(None, true)) && q.producer.GrowIndex? && q.headers != []
    requires First(q) <= p < |q.blockOf|
    ensures var q' := Do(q, Produce(None, true)); var hd, hd' := Current(q), Current(q');
            && hd'.size == 2 * hd.size && q'.headers[..|q.headers|] == q.headers
            && var slot, slot' := SlotOf(hd.start, hd.size, p), SlotOf(hd'.start, hd'.size, p);
            && BaseAt(hd', slot') == BaseAt(hd, slot) && BlockAt(hd', slot') == BlockAt(hd, slot) == q.blockOf[p]
            && q'.indexFront == SlotOf(hd'.start, hd'.size, |q'.blockOf|)
  {
    InvKept(q, Produce(None, true));
    GrowthAppendsHeader(q);
    CurrentSeesRing(q, p);
    CurrentSeesRing(Do(q, Produce(None, true)), p);
  }

  // ---------------------------------------------------------------------------
  // The code's own assertions, and emptiness
  // ---------------------------------------------------------------------------

  /** `assert(!emptyFlags[...])` in `set_empty` and `set_many_empty`. */
  lemma FlagAboutToBeSetIsDown(q: Queue, t: Thread)
    requires Inv(q) && ReaderOf(q, t).SetEmpty?
    ensures var r := ReaderOf(q, t); r.k > 0 && !FlagAt(q, r.b, BLOCK_SIZE - 1 - Word(r.k - 1) % BLOCK_SIZE)
  {
    var r := ReaderOf(q, t);
    C.MarkPlace(q, t);
    OffsetOfWord(r.k - 1);
    assert Unmarked(r, r.k - 1);
    C.UnmarkedInRing(q, t, r.k - 1);
  }

  lemma HeadInRing(q: Queue)
    requires Inv(q)
    ensures First(q) * BLOCK_SIZE <= q.claims.head
  {
    assert !Done(q, q.claims.head);
  }

  /** `assert(!circular_less_than(currentTailIndex, head))` in `enqueue`: the tail never gets
      half the word range ahead of the head, because the ring has no room for it. */
  lemma TailNeverLapsHead(q: Queue)
    requires Inv(q)
    ensures q.claims.head <= q.claims.tail <= q.claims.head + HALF
    ensures !CircularLess(Word(q.claims.tail), Word(q.claims.head))
  {
    HeadInRing(q);
    CircularLessIsLess(q.claims.tail, q.claims.head);
    assert Word(q.claims.head - q.claims.tail) == 0 || Word(q.claims.head - q.claims.tail) >= HALF by {
      WordOfNegation(q.claims.tail - q.claims.head);
    }
  }

  /** The block ahead of the tail block tests empty exactly when all its items are finished. */
  lemma EmptyExactlyWhenFinished(q: Queue)
    requires Inv(q) && |q.blockOf| > 0
    ensures FlagsUpTo(q.flags, Next(q, q.tailBlock), BLOCK_SIZE) <==>
            forall i: nat :: i / BLOCK_SIZE == First(q) ==> Done(q, i)
  {
    P.CircleRotates(q.next, First(q), q.blockOf);
    var b := q.blockOf[First(q)];
    if FlagsUpTo(q.flags, b, BLOCK_SIZE) {
      forall i: nat | i / BLOCK_SIZE == First(q) ensures Done(q, i) { P.EmptyBlockIsFinished(q, i); }
    }
    if forall i: nat :: i / BLOCK_SIZE == First(q) ==> Done(q, i) {
      forall j | 0 <= j < BLOCK_SIZE ensures FlagIn(q.flags, b, j) {
        var i: nat := First(q) * BLOCK_SIZE + (BLOCK_SIZE - 1 - j);
        assert Done(q, i) && Flag(q, i);
      }
    }
  }

  // ---------------------------------------------------------------------------
  // When the window assumption holds
  // ---------------------------------------------------------------------------

  /** A run as the code makes it, whatever the words do. */
  ghost predicate IsTrace(states: seq<Queue>, events: seq<Event>) {
    && |states| == |events| + 1 && StartsConstructed(states[0])
    && forall i :: 0 <= i < |events| ==> Possible(states[i], events[i]) && states[i + 1] == Do(states[i], events[i])
  }

  /** What a step is for the claim protocol; most are nothing to it. */
  function ClaimsEvent(q: Queue, e: Event): Claims.Event {
    match e
    case Produce(_, _) => Claims.Publish(if q.producer.StoreTail? then 1 else 0)
    case CallDequeue(t, kind) => Claims.CallDequeue(t, kind)
    case Consume(t) => if ReaderOf(q, t).Resting? then Claims.Step(t) else Claims.Publish(0)
    case Enqueue(_) => Claims.Publish(0)
  }

  lemma StepIsClaimsStep(q: Queue, e: Event)
    requires Possible(q, e)
    ensures Claims.Enabled(q.claims, ClaimsEvent(q, e))
    ensures Do(q, e).claims == Claims.Do(q.claims, ClaimsEvent(q, e))
  {
    match e
    case Enqueue(_) =>
    case Produce(block, grown) => ProduceIsPublish(q, block, grown);
    case CallDequeue(_, _) =>
    case Consume(t) => if !ReaderOf(q, t).Resting? { ReadLeavesClaims(q, t, ReaderOf(q, t)); }
  }

  lemma ProduceIsPublish(q: Queue, block: Option<Block>, grown: bool)
    ensures DoProduce(q, block, grown).claims == Claims.Do(q.claims, Claims.Publish(if q.producer.StoreTail? then 1 else 0))
  {
  }

  lemma ReadLeavesClaims(q: Queue, t: Thread, r: Reader)
    requires !r.Resting?
    ensures DoRead(q, t, r).claims == q.claims
  {
  }

  ghost function ClaimsStates(states: seq<Queue>): (s: seq<Claims.State>)
    ensures |s| == |states| && forall i :: 0 <= i < |s| ==> s[i] == states[i].claims
  {
    seq(|states|, i requires 0 <= i < |states| => states[i].claims)
  }

  ghost function ClaimsEvents(states: seq<Queue>, events: seq<Event>): (s: seq<Claims.Event>)
    requires |states| >= |events|
    ensures |s| == |events| && forall i :: 0 <= i < |s| ==> s[i] == ClaimsEvent(states[i], events[i])
  {
    seq(|events|, i requires 0 <= i < |events| => ClaimsEvent(states[i], events[i]))
  }

  lemma TraceOfClaims(states: seq<Queue>, events: seq<Event>)
    requires IsTrace(states, events)
    ensures Claims.IsTrace(ClaimsStates(states), ClaimsEvents(states, events))
  {
    forall i | 0 <= i < |events|
      ensures Claims.Enabled(states[i].claims, ClaimsEvent(states[i], events[i]))
      ensures states[i + 1].claims == Claims.Do(states[i].claims, ClaimsEvent(states[i], events[i]))
    {
      StepIsClaimsStep(states[i], events[i]);
    }
  }

  /** All theorems over runs hold of whatever the code does as long as no dequeue sleeps
      through 2^63 items. */
  lemma ModerateTrafficIsARun(states: seq<Queue>, events: seq<Event>)
    requires IsTrace(states, events) && Claims.Moderate(ClaimsStates(states), ClaimsEvents(states, events))
    ensures IsRun(states, events)
  {
    TraceOfClaims(states, events);
    Claims.ModerateTrafficStaysInWindow(ClaimsStates(states), ClaimsEvents(states, events));
    forall i | 0 <= i < |events| ensures CanDo(states[i], events[i]) {
      assert Claims.CanDo(ClaimsStates(states)[i], ClaimsEvents(states, events)[i]);
    }
  }
}
