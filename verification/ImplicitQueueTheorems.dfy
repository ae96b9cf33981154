/** What one implicit producer and any number of consumers guarantee in every run. */
module ImplicitQueueTheorems {
  import opened Arithmetic
  import opened Collections
  import opened Words
  import opened BlockIndex
  import opened ImplicitQueue
  import opened ImplicitQueueInvariant
  import C = ImplicitQueueConsumers
  import P = ImplicitQueueProducer
  import Claims
  import Fifo

  lemma InvKept(q: Queue, e: Event)
    requires Inv(q) && CanDo(q, e)
    ensures Inv(Do(q, e))
  {
    if e.Enqueue? || e.Produce? { P.ProducerStepKeepsInv(q, e); } else { C.ConsumerStepKeepsInv(q, e); }
  }

  ghost predicate IsRun(states: seq<Queue>, events: seq<Event>) {
    && |states| == |events| + 1 && (exists indexed, garbage :: states[0] == Init(indexed, garbage))
    && forall i :: 0 <= i < |events| ==> CanDo(states[i], events[i]) && states[i + 1] == Do(states[i], events[i])
  }

  /** Every reachable state is sound, whatever the interleaving, the allocators' answers,
      the growth of the index and the reuse of blocks. */
  lemma {:induction false} EveryReachableStateIsSound(states: seq<Queue>, events: seq<Event>, n: nat)
    requires IsRun(states, events) && n < |states|
    ensures Inv(states[n])
  {
    if n == 0 {
      var indexed, garbage :| states[0] == Init(indexed, garbage);
      InvInitially(indexed, garbage);
    } else {
      EveryReachableStateIsSound(states, events, n - 1);
      InvKept(states[n - 1], events[n - 1]);
    }
  }

  // ---------------------------------------------------------------------------
  // Refinement of a plain FIFO
  // ---------------------------------------------------------------------------

  /** The FIFO operation a step is the linearization point of. */
  function OpOf(q: Queue, e: Event): Fifo.Op {
    if e.Produce? && q.producer.StoreTail? then Fifo.Put(q.producer.item)
    else if e.Consume? && ReaderOf(q, e.t).Resting? && C.Claiming(q, e.t)
    then Fifo.Take(Claims.PcOf(q.claims, e.t).grant)
    else Fifo.Nothing
  }

  /** The queue as its clients see it: published and not yet claimed. */
  function Contents(q: Queue): seq<Item>
    requires q.claims.head <= q.claims.tail <= |q.items|
  {
    q.items[q.claims.head..q.claims.tail]
  }

  lemma ClaimsStepCounts(c: Claims.State, t: Thread)
    requires Claims.Enabled(c, Claims.Step(t))
    ensures var c', p := Claims.Do(c, Claims.Step(t)), Claims.PcOf(c, t);
            c'.tail == c.tail && c'.head == c.head + (if p.Claim? then p.grant else 0)
  {
  }

  lemma ReadKeepsItems(q: Queue, t: Thread, r: Reader)
    ensures DoRead(q, t, r).items == q.items && DoRead(q, t, r).claims == q.claims
  {
  }

  lemma ProduceKeepsItems(q: Queue, block: Option<Block>, grown: Option<Garbage>)
    ensures q.items <= DoProduce(q, block, grown).items
    ensures DoProduce(q, block, grown).claims.head == q.claims.head
    ensures DoProduce(q, block, grown).claims.tail == q.claims.tail + (if q.producer.StoreTail? then 1 else 0)
  {
  }

  lemma StepKeepsItems(q: Queue, e: Event)
    requires CanDo(q, e)
    ensures q.items <= Do(q, e).items
    ensures Do(q, e).claims.tail == q.claims.tail + |Fifo.Added(OpOf(q, e))|
    ensures Do(q, e).claims.head == q.claims.head + (if OpOf(q, e).Take? then OpOf(q, e).count else 0)
  {
    match e
    case Enqueue(_) =>
    case Produce(block, grown) => ProduceKeepsItems(q, block, grown);
    case CallDequeue(_, _) =>
    case Consume(t) =>
      if ReaderOf(q, t).Resting? { ClaimsStepCounts(q.claims, t); } else { ReadKeepsItems(q, t, ReaderOf(q, t)); }
  }

  lemma OpIsPossible(q: Queue, e: Event)
    requires Inv(q) && CanDo(q, e)
    ensures q.claims.head <= q.claims.tail <= |q.items|
    ensures var op := OpOf(q, e);
            && (op.Put? ==> |q.items| == q.claims.tail + 1 && q.items[q.claims.tail] == op.item)
            && (op.Take? ==> op.count <= q.claims.tail - q.claims.head)
  {
    if OpOf(q, e).Take? { Claims.ClaimedRangeIsPublished(q.claims, e.t); }
  }

  /** Every step refines a FIFO operation or changes nothing; a claim never takes more than
      is there, and a failed allocation loses nothing. */
  lemma StepRefinesFifo(q: Queue, e: Event)
    requires Inv(q) && CanDo(q, e)
    ensures Inv(Do(q, e))
    ensures OpOf(q, e).Take? ==> OpOf(q, e).count <= |Contents(q)|
    ensures Contents(Do(q, e)) == Fifo.Apply(Contents(q), OpOf(q, e))
  {
    var q' := Do(q, e);
    InvKept(q, e);
    OpIsPossible(q, e);
    StepKeepsItems(q, e);
    Fifo.WindowMoves(q.items, q'.items, q.claims.head, q.claims.tail, q'.claims.head, q'.claims.tail, OpOf(q, e));
  }

  /** The item of the last call of `enqueue` among the first n events. */
  function Given(events: seq<Event>, n: nat): Item
    requires n <= |events|
  {
    if n == 0 then 0 else if events[n - 1].Enqueue? then events[n - 1].item else Given(events, n - 1)
  }

  /** Step k moves `tailIndex`. */
  predicate Publishes(states: seq<Queue>, k: nat) {
    k + 1 < |states| && states[k + 1].claims.tail != states[k].claims.tail
  }

  /** The items that callers gave to `enqueue`, of the calls that published within n steps. */
  function Puts(states: seq<Queue>, events: seq<Event>, n: nat): seq<Item>
    requires n <= |events|
  {
    if n == 0 then []
    else Puts(states, events, n - 1) + if Publishes(states, n - 1) then [Given(events, n - 1)] else []
  }

  /** The producer works on item x, unless it has given up or is done. */
  predicate WorksOn(p: Producer, x: Item) { !p.Ready? && !p.Rewind? && !p.ClearEntry? ==> p.item == x }

  lemma StepCarriesItem(q: Queue, e: Event, x: Item)
    requires Possible(q, e) && WorksOn(q.producer, x)
    ensures WorksOn(Do(q, e).producer, if e.Enqueue? then e.item else x)
  {
    match e
    case Enqueue(_) =>
    case Produce(block, grown) => hide DoProduce; ProduceCarriesItem(q, block, grown, x);
    case CallDequeue(_, _) =>
    case Consume(t) => hide DoRead, DoClaims; ConsumeLeavesProducer(q, t);
  }

  lemma ProduceCarriesItem(q: Queue, block: Option<Block>, grown: Option<Garbage>, x: Item)
    requires !q.producer.Ready? && WorksOn(q.producer, x)
    ensures WorksOn(DoProduce(q, block, grown).producer, x)
  {
    ProducerGoesOn(q, block, grown);
  }

  /** Where the producer goes next. */
  function After(q: Queue, block: Option<Block>, grown: Option<Garbage>): Producer {
    match q.producer
    case Ready => Ready
    case LoadHead(x) => if CircularLess(Word(q.claims.head), Word(q.claims.tail + BLOCK_SIZE)) then CheckEntry(x) else Ready
    case CheckEntry(x) => AfterCheck(q, x)
    case GrowIndex(x) => if grown.Some? then StoreKey(x) else Ready
    case StoreKey(x) => StoreIndexTail(x)
    case StoreIndexTail(x) => TakeBlock(x)
    case TakeBlock(x) => if block.Some? then StoreValue(x, block.value) else Rewind
    case StoreValue(x, _) => StoreItem(x)
    case Rewind => ClearEntry
    case ClearEntry => Ready
    case StoreItem(x) => StoreTail(x)
    case StoreTail(_) => Ready
  }

  lemma ProducerGoesOn(q: Queue, block: Option<Block>, grown: Option<Garbage>)
    ensures DoProduce(q, block, grown).producer == After(q, block, grown)
  {
    if FindingEntry(q.producer) {
      hide DoProduce, AfterCheck, CircularLess;
      EntrySteps(q, block, grown);
    } else if KeyingEntry(q.producer) {
      hide DoProduce, AfterCheck, CircularLess;
      KeySteps(q, block, grown);
    } else if q.producer.StoreItem? || q.producer.StoreTail? {
      hide DoProduce, AfterCheck, CircularLess;
      ItemSteps(q, block, grown);
    } else {
      hide WithValue, WithCurrent, NewRef, TailRef, DoFindEntry, DoKeyEntry, DoStoreItem, AfterCheck, CircularLess;
    }
  }

  lemma KeySteps(q: Queue, block: Option<Block>, grown: Option<Garbage>)
    requires KeyingEntry(q.producer)
    ensures DoProduce(q, block, grown).producer == After(q, block, grown)
  {
    hide WithKey, WithCurrent, NewRef, NewTail, DoFindEntry, DoEnterBlock, DoStoreItem, AfterCheck, CircularLess;
  }

  lemma ItemSteps(q: Queue, block: Option<Block>, grown: Option<Garbage>)
    requires q.producer.StoreItem? || q.producer.StoreTail?
    ensures DoProduce(q, block, grown).producer == After(q, block, grown)
  {
    hide Claims.Do, CellsWith, DoFindEntry, DoKeyEntry, DoEnterBlock, AfterCheck, CircularLess;
  }

  lemma EntrySteps(q: Queue, block: Option<Block>, grown: Option<Garbage>)
    requires FindingEntry(q.producer)
    ensures DoProduce(q, block, grown) == DoFindEntry(q, grown)
    ensures DoFindEntry(q, grown).producer == After(q, block, grown)
  {
    hide NewBlockIndex, AfterCheck, CircularLess, DoKeyEntry, DoEnterBlock, DoStoreItem;
  }

  lemma ConsumeLeavesProducer(q: Queue, t: Thread)
    requires Possible(q, Consume(t))
    ensures Do(q, Consume(t)).producer == q.producer && Do(q, Consume(t)).claims.tail == q.claims.tail
  {
    if ReaderOf(q, t).Resting? { ClaimsStepCounts(q.claims, t); } else { ReadLeavesProducer(q, t, ReaderOf(q, t)); }
  }

  lemma ReadLeavesProducer(q: Queue, t: Thread, r: Reader)
    requires !r.Resting?
    ensures DoRead(q, t, r).producer == q.producer && DoRead(q, t, r).claims == q.claims
  {
  }

  /** What the producer works on is what its caller gave it. */
  lemma {:induction false} CarriesGivenItem(states: seq<Queue>, events: seq<Event>, n: nat)
    requires IsRun(states, events) && n <= |events|
    ensures WorksOn(states[n].producer, Given(events, n))
  {
    hide Possible, Do, CanDo;
    if n == 0 {
      StartsReady(states[0]);
    } else {
      CarriesGivenItem(states, events, n - 1);
      IsPossible(states[n - 1], events[n - 1]);
      StepCarriesItem(states[n - 1], events[n - 1], Given(events, n - 1));
    }
  }

  lemma IsPossible(q: Queue, e: Event)
    requires CanDo(q, e)
    ensures Possible(q, e)
  {
  }

  lemma StartsReady(q: Queue)
    requires exists indexed, garbage :: q == Init(indexed, garbage)
    ensures q.producer.Ready? && q.claims == Claims.INIT
  {
  }

  function Published(q: Queue): seq<Item> { if q.claims.tail <= |q.items| then q.items[..q.claims.tail] else [] }

  function ItemOf(p: Producer): Item { if p.Ready? || p.Rewind? || p.ClearEntry? then 0 else p.item }

  lemma ItemWorkedOn(p: Producer, x: Item)
    requires p.StoreTail? && WorksOn(p, x)
    ensures ItemOf(p) == x
  {
  }

  lemma PublishingStep(q: Queue, e: Event)
    requires Inv(q) && CanDo(q, e)
    ensures Do(q, e).claims.tail != q.claims.tail ==> q.producer.StoreTail?
    ensures Published(Do(q, e)) == Published(q) + if Do(q, e).claims.tail != q.claims.tail then [ItemOf(q.producer)] else []
  {
    hide Inv, Do, CanDo, Possible, Fifo.Apply;
    IsPossible(q, e);
    var q' := Do(q, e);
    OpIsPossible(q, e);
    StepKeepsItems(q, e);
    Fifo.WindowMoves(q.items, q'.items, q.claims.head, q.claims.tail, q'.claims.head, q'.claims.tail, OpOf(q, e));
  }

  lemma PublishedItemsAreThePuts(states: seq<Queue>, events: seq<Event>, n: nat)
    requires IsRun(states, events) && n <= |events|
    ensures Inv(states[n]) && states[n].items[..states[n].claims.tail] == Puts(states, events, n)
  {
    EveryReachableStateIsSound(states, events, n);
    PublishedArePuts(states, events, n);
  }

  lemma RunStep(states: seq<Queue>, events: seq<Event>, k: nat)
    requires IsRun(states, events) && k < |events|
    ensures |states| == |events| + 1 && CanDo(states[k], events[k]) && states[k + 1] == Do(states[k], events[k])
  {
  }

  lemma NothingAtFirst(states: seq<Queue>, events: seq<Event>)
    requires IsRun(states, events)
    ensures Published(states[0]) == []
  {
    StartsReady(states[0]);
  }

  lemma {:induction false} PublishedArePuts(states: seq<Queue>, events: seq<Event>, n: nat)
    requires IsRun(states, events) && n <= |events|
    ensures Published(states[n]) == Puts(states, events, n)
  {
    hide Inv, Do, CanDo, Published, IsRun, WorksOn, ItemOf;
    if n == 0 {
      NothingAtFirst(states, events);
    } else {
      RunStep(states, events, n - 1);
      PublishedArePuts(states, events, n - 1);
      EveryReachableStateIsSound(states, events, n - 1);
      CarriesGivenItem(states, events, n - 1);
      PublishingStep(states[n - 1], events[n - 1]);
      if states[n - 1].producer.StoreTail? { ItemWorkedOn(states[n - 1].producer, Given(events, n - 1)); }
    }
  }

  // ---------------------------------------------------------------------------
  // Delivery
  // ---------------------------------------------------------------------------

  /** The item read for claimed index i is the i-th item put in, read for the first time. */
  lemma ReadDeliversTheClaimedItem(q: Queue, t: Thread)
    requires Inv(q) && ReaderOf(q, t).ReadItem?
    ensures var i := ReaderOf(q, t).index;
            && i < q.claims.head && i < |q.items| && OwnerOf(q, i) == t && i !in q.delivered
            && DoRead(q, t, ReaderOf(q, t)).delivered == q.delivered[i := q.items[i]]
  {
    C.ReadPlace(q, t);
    C.ReadEffect(q, t);
  }

  ghost predicate Quiescent(q: Queue) { forall t: Thread :: ReaderOf(q, t).Resting? }

  /** First in, first out, each exactly once: in every run, whenever no claimed item is still
      being read, the items delivered so far are, index by index, the first `headIndex`
      items put in. */
  lemma DeliveriesAreTheFirstPuts(states: seq<Queue>, events: seq<Event>, n: nat)
    requires IsRun(states, events) && n <= |events| && Quiescent(states[n])
    ensures var q, puts := states[n], Puts(states, events, n);
            && q.claims.head <= |puts|
            && (forall i: nat :: i in q.delivered <==> i < q.claims.head)
            && (forall i: nat :: i < q.claims.head ==> q.delivered[i] == puts[i])
  {
    PublishedItemsAreThePuts(states, events, n);
    var q := states[n];
    forall i: nat | i < q.claims.head ensures i in q.delivered && q.delivered[i] == q.items[i] {
      assert i !in Waiting(q);
    }
  }

  /** At every moment of a run, reads in flight or not, what has been delivered for an index is
      the item put in at that place. */
  lemma DeliveredIsWhatWasPut(states: seq<Queue>, events: seq<Event>, n: nat, i: nat)
    requires IsRun(states, events) && n <= |events| && i in states[n].delivered
    ensures i < states[n].claims.head && i < |Puts(states, events, n)|
    ensures states[n].delivered[i] == Puts(states, events, n)[i]
  {
    PublishedItemsAreThePuts(states, events, n);
  }

  /** Step k of the run reads the item of index i. */
  predicate Reads(states: seq<Queue>, events: seq<Event>, k: nat, i: nat) {
    k < |events| && k < |states| && events[k].Consume? &&
    ReaderOf(states[k], events[k].t).ReadItem? && ReaderOf(states[k], events[k].t).index == i
  }

  /** A delivery is never taken back. */
  lemma StepKeepsDeliveries(q: Queue, e: Event, i: nat)
    requires Inv(q) && CanDo(q, e)
    ensures i in q.delivered ==> i in Do(q, e).delivered
    ensures e.Consume? && ReaderOf(q, e.t).ReadItem? && ReaderOf(q, e.t).index == i ==> i !in q.delivered && i in Do(q, e).delivered
  {
    if e.Consume? && ReaderOf(q, e.t).ReadItem? { ReadDeliversTheClaimedItem(q, e.t); } else { OthersKeepDeliveries(q, e); }
  }

  lemma OthersKeepDeliveries(q: Queue, e: Event)
    requires CanDo(q, e) && !(e.Consume? && ReaderOf(q, e.t).ReadItem?)
    ensures Do(q, e).delivered == q.delivered
  {
    match e
    case Enqueue(_) =>
    case Produce(block, grown) => ProduceKeepsDeliveries(q, block, grown);
    case CallDequeue(_, _) =>
    case Consume(t) => if !ReaderOf(q, t).Resting? { OtherReadsKeepDeliveries(q, t, ReaderOf(q, t)); }
  }

  lemma ProduceKeepsDeliveries(q: Queue, block: Option<Block>, grown: Option<Garbage>)
    ensures DoProduce(q, block, grown).delivered == q.delivered
  {
    EnteringKeepsDeliveries(q, block);
  }

  lemma EnteringKeepsDeliveries(q: Queue, block: Option<Block>)
    ensures DoEnterBlock(q, block).delivered == q.delivered
  {
  }

  lemma OtherReadsKeepDeliveries(q: Queue, t: Thread, r: Reader)
    requires !r.ReadItem? && !r.Resting?
    ensures DoRead(q, t, r).delivered == q.delivered
  {
  }

  lemma DeliveredAfterStep(states: seq<Queue>, events: seq<Event>, k: nat, i: nat)
    requires IsRun(states, events) && k < |events| && (i in states[k].delivered || Reads(states, events, k, i))
    ensures i in states[k + 1].delivered
    ensures Reads(states, events, k, i) ==> i !in states[k].delivered
  {
    EveryReachableStateIsSound(states, events, k);
    StepKeepsDeliveries(states[k], events[k], i);
  }

  lemma {:induction false} StaysDelivered(states: seq<Queue>, events: seq<Event>, j: nat, k: nat, i: nat)
    requires IsRun(states, events) && j <= k < |states| && i in states[j].delivered
    ensures i in states[k].delivered
  {
    if j == k {
    } else {
      StaysDelivered(states, events, j, k - 1, i);
      DeliveredAfterStep(states, events, k - 1, i);
    }
  }

  /** No index is read twice in a run. */
  lemma NoIndexReadTwice(states: seq<Queue>, events: seq<Event>, j: nat, k: nat, i: nat)
    requires IsRun(states, events) && j < k && Reads(states, events, j, i)
    ensures !Reads(states, events, k, i)
  {
    if Reads(states, events, k, i) {
      DeliveredAfterStep(states, events, j, i);
      StaysDelivered(states, events, j + 1, k, i);
      DeliveredAfterStep(states, events, k, i);
    }
  }

  // ---------------------------------------------------------------------------
  // Blocks are given back exactly once
  // ---------------------------------------------------------------------------

  /** The step gives block number p back to the free list. */
  predicate GivesBack(q: Queue, e: Event, p: nat) {
    e.Consume? && ReaderOf(q, e.t).ReturnBlock? && ReaderOf(q, e.t).first / BLOCK_SIZE == p
  }

  /** A block is given back by the consumer that completed its count, after its index entry
      lost it, and when every item of it has been read and destroyed. */
  lemma GivenBackWhenDone(q: Queue, e: Event, p: nat)
    requires Inv(q) && CanDo(q, e) && GivesBack(q, e, p)
    ensures p < |q.fates| && q.fates[p] == Nulled(e.t) && ReaderOf(q, e.t).b == q.blockOf[p]
    ensures forall i: nat :: i / BLOCK_SIZE == p ==> i in q.delivered && i in Finished(q) && i !in Waiting(q)
    ensures Current(q.headers).lo <= p ==> EntryAt(q.entries, q.entryOf[p]).value == NULL
    ensures Do(q, e).fates == q.fates[p := Returned]
  {
    C.ReaderFacts(q, e.t);
    forall i: nat | i / BLOCK_SIZE == p ensures i in Finished(q) && i !in Waiting(q) && i in q.delivered {
      assert LiesIn(i, p) && i in IndicesOf(p);
      FinishedIsRead(q, i);
    }
  }

  lemma FinishedIsRead(q: Queue, i: nat)
    requires Inv(q) && i in Finished(q)
    ensures i in q.delivered && i !in Waiting(q)
  {
    var r := ReaderOf(q, OwnerOf(q, i));
    C.ReaderFacts(q, OwnerOf(q, i));
    assert Unread(r, i) ==> Unmarked(r, i);
  }

  /** Fates only move on. */
  function Rank(f: Fate): nat { match f case Open => 0 case Full(_) => 1 case Nulled(_) => 2 case Returned => 3 }

  lemma FatesOnlyMoveOn(q: Queue, e: Event, p: nat)
    requires Inv(q) && CanDo(q, e) && p < |q.fates|
    ensures p < |Do(q, e).fates| && Rank(q.fates[p]) <= Rank(Do(q, e).fates[p])
    ensures q.fates[p].Returned? ==> Do(q, e).fates[p].Returned?
  {
    if e.Consume? && !ReaderOf(q, e.t).Resting? { ReadMovesFates(q, e.t, p); } else { OnlyReadsMoveFates(q, e); }
  }

  lemma OnlyReadsMoveFates(q: Queue, e: Event)
    requires CanDo(q, e) && !(e.Consume? && !ReaderOf(q, e.t).Resting?)
    ensures q.fates <= Do(q, e).fates
  {
    if e.Produce? { ProduceKeepsFates(q, e.block, e.grown); }
  }

  lemma ProduceKeepsFates(q: Queue, block: Option<Block>, grown: Option<Garbage>)
    ensures q.fates <= DoProduce(q, block, grown).fates
  {
  }

  lemma ReadMovesFates(q: Queue, t: Thread, p: nat)
    requires Inv(q) && p < |q.fates| && !ReaderOf(q, t).Resting?
    ensures var fates' := DoRead(q, t, ReaderOf(q, t)).fates;
            |fates'| == |q.fates| && Rank(q.fates[p]) <= Rank(fates'[p])
  {
    var r := ReaderOf(q, t);
    C.ReaderFacts(q, t);
    if r.AddEmpty? { C.AddPlace(q, t); }
    FatesAfterRead(q, t, r);
    FateMovesOn(q.fates, r, t, DoRead(q, t, r).fates, p);
  }

  lemma FateMovesOn(fates: seq<Fate>, r: Reader, t: Thread, fates': seq<Fate>, p: nat)
    requires FateOf(fates, r, t) && p < |fates|
    requires r.AddEmpty? ==> r.first / BLOCK_SIZE < |fates| && fates[r.first / BLOCK_SIZE].Open?
    requires
      || fates' == fates
      || (r.AddEmpty? && fates' == WithFate(fates, r.first / BLOCK_SIZE, Full(t)))
      || (r.NullEntry? && fates' == WithFate(fates, r.first / BLOCK_SIZE, Nulled(t)))
      || (r.ReturnBlock? && fates' == WithFate(fates, r.first / BLOCK_SIZE, Returned))
    ensures |fates'| == |fates| && Rank(fates[p]) <= Rank(fates'[p])
  {
  }

  lemma FatesAfterRead(q: Queue, t: Thread, r: Reader)
    ensures DoRead(q, t, r).fates ==
            if r.AddEmpty? && NewCount(q, r) == BLOCK_SIZE then WithFate(q.fates, r.first / BLOCK_SIZE, Full(t))
            else if r.NullEntry? then WithFate(q.fates, r.first / BLOCK_SIZE, Nulled(t))
            else if r.ReturnBlock? then WithFate(q.fates, r.first / BLOCK_SIZE, Returned)
            else q.fates
  {
  }

  lemma {:induction false} FatesOnlyMoveOnInRun(states: seq<Queue>, events: seq<Event>, i: nat, j: nat, p: nat)
    requires IsRun(states, events) && i <= j < |states| && p < |states[i].fates|
    ensures p < |states[j].fates| && Rank(states[i].fates[p]) <= Rank(states[j].fates[p])
  {
    if i == j {
    } else {
      FatesOnlyMoveOnInRun(states, events, i, j - 1, p);
      EveryReachableStateIsSound(states, events, j - 1);
      assert CanDo(states[j - 1], events[j - 1]);
      FatesOnlyMoveOn(states[j - 1], events[j - 1], p);
    }
  }

  lemma GivesBackNulled(q: Queue, e: Event, p: nat)
    requires Inv(q) && CanDo(q, e) && GivesBack(q, e, p)
    ensures p < |q.fates| == |Do(q, e).fates| && q.fates[p].Nulled? && Do(q, e).fates[p].Returned?
  {
    C.ReaderFacts(q, e.t);
  }

  /** No block number is given back twice in a run. */
  lemma GivenBackAtMostOnce(states: seq<Queue>, events: seq<Event>, i: nat, j: nat, p: nat)
    requires IsRun(states, events) && i < j < |events| && GivesBack(states[i], events[i], p)
    ensures !GivesBack(states[j], events[j], p)
  {
    assert CanDo(states[i], events[i]) && states[i + 1] == Do(states[i], events[i]);
    GivenBackStays(states, events, i, p);
    FatesOnlyMoveOnInRun(states, events, i + 1, j, p);
    if GivesBack(states[j], events[j], p) { GivenBackStays(states, events, j, p); }
  }

  lemma GivenBackStays(states: seq<Queue>, events: seq<Event>, i: nat, p: nat)
    requires IsRun(states, events) && i < |events| && GivesBack(states[i], events[i], p)
    ensures p < |states[i].fates| && states[i].fates[p].Nulled? && p < |states[i + 1].fates| && states[i + 1].fates[p].Returned?
  {
    EveryReachableStateIsSound(states, events, i);
    assert CanDo(states[i], events[i]);
    GivesBackNulled(states[i], events[i], p);
  }

  lemma NoneReleasing(q: Queue, p: nat)
    requires FateOwners(q.fates, q.readers) && Quiescent(q) && p < |q.fates|
    ensures q.fates[p].Returned? || q.fates[p].Open?
  {
    match q.fates[p]
    case Full(t) => assert ReaderOf(q, t).Resting?;
    case Nulled(t) => assert ReaderOf(q, t).Resting?;
    case _ =>
  }

  /** And none is forgotten: with no reading in flight, the blocks given back are exactly
      those whose items have all been claimed. */
  lemma GivenBackAtLeastOnce(q: Queue, p: nat)
    requires Inv(q) && Quiescent(q) && p < |q.fates|
    ensures q.fates[p].Returned? <==> (p + 1) * BLOCK_SIZE <= q.claims.head
    ensures q.fates[p].Returned? || q.fates[p].Open?
  {
    NoneReleasing(q, p);
    C.BlockRange(p);
    var last: nat := (p + 1) * BLOCK_SIZE - 1;
    assert LiesIn(last, p) && last in IndicesOf(p);
    assert forall i: nat :: i < q.claims.head ==> i in Finished(q);
  }

  /** `assert(prevVal + count <= BLOCK_SIZE)` in `set_many_empty`, and who completes the count:
      the consumer after which all items of the block are finished. */
  lemma CountIsExact(q: Queue, t: Thread)
    requires Inv(q) && ReaderOf(q, t).AddEmpty?
    ensures var r := ReaderOf(q, t); var q' := DoRead(q, t, r); var p := r.first / BLOCK_SIZE;
            && NewCount(q, r) <= BLOCK_SIZE && p < |q'.fates|
            && (NewCount(q, r) == BLOCK_SIZE <==> q'.fates[p] == Full(t))
            && (NewCount(q, r) == BLOCK_SIZE <==> IndicesOf(p) <= Finished(q'))
  {
    var r := ReaderOf(q, t);
    var q' := DoRead(q, t, r);
    C.AddPlace(q, t);
    C.ReaderStepKeepsInv(q, t, r);
    if NewCount(q, r) != BLOCK_SIZE {
      C.NextBlockIndices(r.h, r.slot, r.stop, r.end, HeaderAt(q.headers, r.h).size);
    }
    C.MoreFinished(q, q', t, ReaderOf(q', t));
    C.CountAfter(r.first / BLOCK_SIZE, Finished(q), r.first, r.stop);
  }

  // ---------------------------------------------------------------------------
  // Unread items stay findable
  // ---------------------------------------------------------------------------

  /** Every item not yet read is found through the current index, from wherever its tail
      stands, in a block that has not been given back. */
  lemma UnreadIsFindable(q: Queue, i: nat)
    requires Inv(q) && i in Waiting(q)
    ensures q.headers != [] && IsCapacity(Current(q.headers).size) && i / BLOCK_SIZE < |q.blockOf|
    ensures var hd := Current(q.headers);
            var slot := LookupSlot(Word(i), EntryAt(q.entries, RefAt(hd, hd.tail)).key, hd.tail, hd.size);
            var entry := EntryAt(q.entries, RefAt(hd, slot));
            && entry.key == BlockBase(Word(i)) && entry.value == q.blockOf[i / BLOCK_SIZE] != NULL
            && CellIn(q.cells, entry.value, Word(i) % BLOCK_SIZE) == Some(q.items[i])
            && q.fates[i / BLOCK_SIZE].Open?
  {
    C.WaitingIsOpen(q, i);
    var hd, p := Current(q.headers), i / BLOCK_SIZE;
    assert q.headers != [] && hd.lo <= p;
    C.HeaderFacts(q, |q.headers| - 1);
    TailKeyValid(q, p);
    LookupFindsSlot(i, hd.at, hd.start, hd.size);
    C.SlotShowsBlock(q, |q.headers| - 1, SlotOf(hd.start, hd.size, p), p);
    BlockBaseOfWord(i);
    assert BlockShape(q.counts, q.cells, q.blockOf[p]);
  }

  lemma TailKeyValid(q: Queue, p: nat)
    requires Inv(q) && q.headers != [] && Current(q.headers).lo <= p < |q.blockOf|
    ensures var hd := Current(q.headers);
            hd.at >= p && hd.tail == SlotOf(hd.start, hd.size, hd.at)
            && EntryAt(q.entries, RefAt(hd, hd.tail)).key == Word(hd.at * BLOCK_SIZE)
  {
    C.HeaderFacts(q, |q.headers| - 1);
    C.EntrySeen(q, |q.headers| - 1, Current(q.headers).at);
  }

  /** What the lookup asserts: the index has a tail entry, and the slot computed from it holds
      the base looked for and a block. */
  predicate LookupIsSound(q: Queue, t: Thread)
    requires ReaderOf(q, t).LoadKey?
  {
    var r := ReaderOf(q, t);
    var hd := HeaderAt(q.headers, r.h);
    var key := EntryAt(q.entries, RefAt(hd, r.f)).key;
    && key != INVALID_BLOCK_BASE && IsCapacity(hd.size)
    && var entry := EntryAt(q.entries, RefAt(hd, LookupSlot(Word(r.index), key, r.f, hd.size)));
       entry.key == BlockBase(Word(r.index)) && entry.value != NULL
  }

  /** The assertions of `get_block_index_index_for_index`: the tail's key is valid, and the slot
      computed from it holds the claimed block's base and a block. */
  lemma LookupAssertionsHold(q: Queue, t: Thread)
    requires Inv(q) && ReaderOf(q, t).LoadKey?
    ensures LookupIsSound(q, t)
  {
    var r := ReaderOf(q, t);
    var p := r.index / BLOCK_SIZE;
    C.ReaderFacts(q, t);
    C.UnmarkedIsOpen(q, t, r.index);
    C.KeyLeadsToSlot(q, r);
    P.BaseIsValid(r.seen);
    C.SlotShowsBlock(q, r.h, SlotOf(q.headers[r.h].start, q.headers[r.h].size, p), p);
    BlockBaseOfWord(r.index);
    assert BlockShape(q.counts, q.cells, q.blockOf[p]);
  }

  /** Growing the index keeps every lookup: through the old header and through the new one,
      every block of the window is found in the same entry, and the entry behind the new tail
      is blank, as `insert_block_index_entry` asserts. */
  lemma GrowthKeepsLookups(q: Queue, garbage: Garbage, p: nat)
    requires Inv(q) && CanDo(q, Produce(None, Some(garbage))) && q.producer.GrowIndex?
    requires Current(q.headers).lo <= p < |q.blockOf|
    ensures var q' := Do(q, Produce(None, Some(garbage))); var hd, hd' := Current(q.headers), Current(q'.headers);
            && hd'.size == 2 * hd.size && q'.headers[..|q.headers|] == q.headers
            && RefAt(hd', SlotOf(hd'.start, hd'.size, p)) == RefAt(hd, SlotOf(hd.start, hd.size, p)) == q.entryOf[p]
            && EntryAt(q'.entries, q.entryOf[p]) == EntryAt(q.entries, q.entryOf[p])
            && EntryAt(q'.entries, NewRef(q')).key == INVALID_BLOCK_BASE
  {
    var q' := Do(q, Produce(None, Some(garbage)));
    InvKept(q, Produce(None, Some(garbage)));
    C.EntrySeen(q, |q.headers| - 1, p);
    C.HeaderFacts(q, |q.headers| - 1);
    P.NewBlockIndexGrows(q, garbage);
    C.EntrySeen(q', |q'.headers| - 1, p);
    P.NextEntry(q');
  }

  // ---------------------------------------------------------------------------
  // Nothing is pulled from under a reader
  // ---------------------------------------------------------------------------

  predicate By(e: Event, t: Thread) { (e.CallDequeue? || e.Consume?) && e.t == t }

  lemma OthersLeaveReader(q: Queue, e: Event, t: Thread)
    requires CanDo(q, e) && !By(e, t)
    ensures ReaderOf(Do(q, e), t) == ReaderOf(q, t)
    ensures q.blockOf <= Do(q, e).blockOf && q.items <= Do(q, e).items
  {
    match e
    case Enqueue(_) =>
    case Produce(block, grown) => ProduceLeavesReaders(q, block, grown);
    case CallDequeue(_, _) =>
    case Consume(u) => if !ReaderOf(q, u).Resting? { ReadLeavesOthers(q, u, ReaderOf(q, u), t); }
  }

  lemma ProduceLeavesReaders(q: Queue, block: Option<Block>, grown: Option<Garbage>)
    ensures DoProduce(q, block, grown).readers == q.readers
    ensures q.blockOf <= DoProduce(q, block, grown).blockOf && q.items <= DoProduce(q, block, grown).items
  {
  }

  lemma ReadLeavesOthers(q: Queue, u: Thread, r: Reader, t: Thread)
    requires u != t
    ensures ReaderOf(DoRead(q, u, r), t) == ReaderOf(q, t)
    ensures DoRead(q, u, r).blockOf == q.blockOf && DoRead(q, u, r).items == q.items
  {
  }

  /** While a claimed item has not been counted empty, nobody else gives its block back,
      takes it out of the index or overwrites an item still to be read. */
  lemma ClaimedSlotIsSafe(q: Queue, e: Event, t: Thread, i: nat)
    requires Inv(q) && CanDo(q, e) && !By(e, t) && Unmarked(ReaderOf(q, t), i)
    ensures var q', p := Do(q, e), i / BLOCK_SIZE;
            && Inv(q') && p < |q.blockOf| <= |q'.blockOf| && q'.blockOf[p] == q.blockOf[p] && q'.fates[p].Open?
            && (Unread(ReaderOf(q, t), i) ==>
                  i < |q.items| && CellIn(q'.cells, q'.blockOf[p], i % BLOCK_SIZE) == Some(q.items[i]))
  {
    var q' := Do(q, e);
    InvKept(q, e);
    OthersLeaveReader(q, e, t);
    C.UnmarkedIsOpen(q, t, i);
    C.UnmarkedIsOpen(q', t, i);
    if Unread(ReaderOf(q, t), i) {
      assert i in Waiting(q');
    }
  }

  // ---------------------------------------------------------------------------
  // The tail and the head
  // ---------------------------------------------------------------------------

  /** `assert(!circular_less_than(currentTailIndex, head))` in `enqueue`: the tail never gets
      half the word range ahead of the head, because the index has no room for it. */
  lemma TailNeverLapsHead(q: Queue)
    requires Inv(q)
    ensures q.claims.head <= q.claims.tail <= q.claims.head + HALF
    ensures !CircularLess(Word(q.claims.tail), Word(q.claims.head))
  {
    if q.headers != [] { WindowBelowHalf(q); }
    CircularLessIsLess(q.claims.tail, q.claims.head);
    WordOfNegation(q.claims.tail - q.claims.head);
  }

  lemma WindowBelowHalf(q: Queue)
    requires Inv(q) && q.headers != []
    ensures q.claims.tail <= q.claims.head + HALF
  {
    var hd := Current(q.headers);
    assert HeaderInv(hd, q.entryOf);
    if hd.lo > 0 {
      var last: nat := hd.lo * BLOCK_SIZE - 1;
      assert LiesIn(last, hd.lo - 1) && last in IndicesOf(hd.lo - 1);
      if hd.lo - 1 < |q.fates| { assert Dead(q.fates[hd.lo - 1]) && last in Finished(q); }
    }
  }

  // ---------------------------------------------------------------------------
  // When the window assumption holds
  // ---------------------------------------------------------------------------

  /** A run as the code makes it, whatever the words do. */
  ghost predicate IsTrace(states: seq<Queue>, events: seq<Event>) {
    && |states| == |events| + 1 && (exists indexed, garbage :: states[0] == Init(indexed, garbage))
    && forall i :: 0 <= i < |events| ==> Possible(states[i], events[i]) && states[i + 1] == Do(states[i], events[i])
  }

  /** What a step is for the claim protocol; most are nothing to it. */
  function ClaimsEvent(q: Queue, e: Event): Claims.Event {
    match e
    case Produce(_, _) => Claims.Publish(if q.producer.StoreTail? then 1 else 0)
    case CallDequeue(t, kind) => Claims.CallDequeue(t, kind)
    case Consume(t) => if ReaderOf(q, t).Resting? then Claims.Step(t) else Claims.Publish(0)
    case Enqueue(_) => Claims.Publish(0)
  }

  lemma StepIsClaimsStep(q: Queue, e: Event)
    requires Possible(q, e)
    ensures Claims.Enabled(q.claims, ClaimsEvent(q, e))
    ensures Do(q, e).claims == Claims.Do(q.claims, ClaimsEvent(q, e))
  {
    match e
    case Enqueue(_) =>
    case Produce(block, grown) => ProduceIsPublish(q, block, grown);
    case CallDequeue(_, _) =>
    case Consume(t) => if !ReaderOf(q, t).Resting? { ReadLeavesClaims(q, t, ReaderOf(q, t)); }
  }

  lemma ProduceIsPublish(q: Queue, block: Option<Block>, grown: Option<Garbage>)
    ensures DoProduce(q, block, grown).claims == Claims.Do(q.claims, Claims.Publish(if q.producer.StoreTail? then 1 else 0))
  {
  }

  lemma ReadLeavesClaims(q: Queue, t: Thread, r: Reader)
    requires !r.Resting?
    ensures DoRead(q, t, r).claims == q.claims
  {
  }

  ghost function ClaimsStates(states: seq<Queue>): (s: seq<Claims.State>)
    ensures |s| == |states| && forall i :: 0 <= i < |s| ==> s[i] == states[i].claims
  {
    seq(|states|, i requires 0 <= i < |states| => states[i].claims)
  }

  ghost function ClaimsEvents(states: seq<Queue>, events: seq<Event>): (s: seq<Claims.Event>)
    requires |states| >= |events|
    ensures |s| == |events| && forall i :: 0 <= i < |s| ==> s[i] == ClaimsEvent(states[i], events[i])
  {
    seq(|events|, i requires 0 <= i < |events| => ClaimsEvent(states[i], events[i]))
  }

  lemma TraceOfClaims(states: seq<Queue>, events: seq<Event>)
    requires IsTrace(states, events)
    ensures Claims.IsTrace(ClaimsStates(states), ClaimsEvents(states, events))
  {
    forall i | 0 <= i < |events|
      ensures Claims.Enabled(states[i].claims, ClaimsEvent(states[i], events[i]))
      ensures states[i + 1].claims == Claims.Do(states[i].claims, ClaimsEvent(states[i], events[i]))
    {
      StepIsClaimsStep(states[i], events[i]);
    }
  }

  predicate AsksForItems(e: Event) { e.CallDequeue? ==> e.kind != Claims.Bulk(0) }

  lemma NoneClaimsNothing(states: seq<Queue>, events: seq<Event>, n: nat, t: Thread)
    requires IsTrace(states, events) && n < |states| && forall e :: e in events ==> AsksForItems(e)
    ensures !Claims.PcOf(states[n].claims, t).ClaimsNothing()
  {
    TraceOfClaims(states, events);
    var cs, es := ClaimsStates(states), ClaimsEvents(states, events);
    forall e | e in es ensures Claims.AsksForItems(e) {
      var i :| 0 <= i < |es| && es[i] == e;
      assert events[i] in events;
    }
    Claims.OnlyZeroClaimsNothing(cs, es, n, t);
  }

  /** All theorems over runs hold of whatever the code does as long as no bulk dequeue asks for
      0 items and no dequeue sleeps through 2^63 of them. */
  lemma ModerateTrafficIsARun(states: seq<Queue>, events: seq<Event>)
    requires IsTrace(states, events) && forall e :: e in events ==> AsksForItems(e)
    requires Claims.Moderate(ClaimsStates(states), ClaimsEvents(states, events))
    ensures IsRun(states, events)
  {
    TraceOfClaims(states, events);
    Claims.ModerateTrafficStaysInWindow(ClaimsStates(states), ClaimsEvents(states, events));
    forall i | 0 <= i < |events| ensures CanDo(states[i], events[i]) {
      assert Claims.CanDo(ClaimsStates(states)[i], ClaimsEvents(states, events)[i]);
      if events[i].Consume? { NoneClaimsNothing(states, events, i, events[i].t); }
    }
  }
}
