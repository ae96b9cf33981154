/** What one call of `enqueue` or `dequeue` on an implicit producer comes to, whatever the others
    do meanwhile. */
module ImplicitQueueCalls {
  import opened Collections
  import opened Words
  import opened BlockIndex
  import opened ImplicitQueue
  import opened ImplicitQueueInvariant
  import opened ImplicitQueueTheorems
  import C = ImplicitQueueConsumers
  import P = ImplicitQueueProducer
  import Claims

  // ---------------------------------------------------------------------------
  // Enqueue
  // ---------------------------------------------------------------------------

  /** A step at which the code may decide to give an item back to its caller: an allocator
      refuses, the one of the constructor already did, or the true tail would get half the range
      ahead of the true head. */
  predicate Refused(q: Queue, e: Event) {
    e.Produce? &&
    match q.producer
    case LoadHead(_) => q.claims.tail + BLOCK_SIZE - q.claims.head >= HALF
    case CheckEntry(_) => q.headers == []
    case GrowIndex(_) => e.grown.None?
    case TakeBlock(_) => e.block.None?
    case _ => false
  }

  /** The producer is inside one call from event i on. */
  ghost predicate Enqueuing(states: seq<Queue>, events: seq<Event>, i: nat, j: nat) {
    && i < j < |states| && i < |events| && events[i].Enqueue?
    && forall k :: i < k <= j ==> !states[k].producer.Ready?
  }

  /** On the way back from an allocator that gave no block. */
  predicate GivingUp(p: Producer) { p.Rewind? || p.ClearEntry? }

  lemma RoomCheck(q: Queue)
    requires Inv(q)
    ensures CircularLess(Word(q.claims.head), Word(q.claims.tail + BLOCK_SIZE)) <==>
            q.claims.tail + BLOCK_SIZE - q.claims.head < HALF
  {
    TailNeverLapsHead(q);
    CircularLessIsLess(q.claims.head, q.claims.tail + BLOCK_SIZE);
  }

  lemma ProducerMovesTail(q: Queue, block: Option<Block>, grown: Option<Garbage>)
    requires !q.producer.Ready?
    ensures DoProduce(q, block, grown).claims.tail == q.claims.tail + (if q.producer.StoreTail? then 1 else 0)
  {
    ProduceKeepsItems(q, block, grown);
  }

  /** The producer's place and the tail change only by its own steps. */
  lemma OnlyProducerMoves(q: Queue, e: Event)
    requires CanDo(q, e) && !q.producer.Ready? && !e.Produce?
    ensures Do(q, e).producer == q.producer && Do(q, e).claims.tail == q.claims.tail
  {
    if e.Consume? { hide DoRead, DoClaims; ConsumeLeavesProducer(q, e.t); }
  }

  lemma OutcomeOfStep(q: Queue, e: Event)
    requires Inv(q) && CanDo(q, e) && !q.producer.Ready?
    ensures var q' := Do(q, e);
            && !e.Enqueue?
            && (GivingUp(q'.producer) ==> GivingUp(q.producer) || Refused(q, e))
            && if q'.producer.Ready? && q.producer.StoreTail? then q'.claims.tail == q.claims.tail + 1
               else q'.claims.tail == q.claims.tail && (q'.producer.Ready? ==> GivingUp(q.producer) || Refused(q, e))
  {
    hide Inv, DoProduce;
    if e.Produce? {
      ProducerGoesOn(q, e.block, e.grown);
      ProducerMovesTail(q, e.block, e.grown);
      RoomCheck(q);
      if !q.producer.StoreTail? { GoesOnOrRefused(q, e); }
    } else {
      OnlyProducerMoves(q, e);
    }
  }

  lemma GoesOnOrRefused(q: Queue, e: Event)
    requires e.Produce? && !q.producer.Ready? && !q.producer.StoreTail?
    requires CircularLess(Word(q.claims.head), Word(q.claims.tail + BLOCK_SIZE)) <==> q.claims.tail + BLOCK_SIZE - q.claims.head < HALF
    ensures var p' := After(q, e.block, e.grown); p'.Ready? || GivingUp(p') ==> GivingUp(q.producer) || Refused(q, e)
  {
    hide CircularLess, NewRef;
  }

  /** Somewhere in the call it was refused. */
  ghost predicate RefusedWithin(states: seq<Queue>, events: seq<Event>, i: nat, j: nat) {
    exists k :: i < k < j && k < |states| && k < |events| && Refused(states[k], events[k])
  }

  lemma {:induction false} NothingPublishedYet(states: seq<Queue>, events: seq<Event>, i: nat, j: nat)
    requires IsRun(states, events) && Enqueuing(states, events, i, j)
    ensures states[j].claims.tail == states[i].claims.tail
    ensures Given(events, j) == events[i].item && Puts(states, events, j) == Puts(states, events, i)
    ensures GivingUp(states[j].producer) ==> RefusedWithin(states, events, i, j)
    decreases j
  {
    hide Inv, Do, CanDo, Refused, GivingUp;
    if j == i + 1 {
      CallBegins(states[i], events[i]);
    } else {
      NothingPublishedYet(states, events, i, j - 1);
      EveryReachableStateIsSound(states, events, j - 1);
      OutcomeOfStep(states[j - 1], events[j - 1]);
    }
  }

  lemma CallBegins(q: Queue, e: Event)
    requires CanDo(q, e) && e.Enqueue?
    ensures Do(q, e).claims == q.claims && !GivingUp(Do(q, e).producer)
  {
  }

  /** In every run a call of `enqueue` that has ended has published its caller's item, once and at
      the end, or has published nothing because it was refused. */
  lemma EnqueuePublishesOrIsRefused(states: seq<Queue>, events: seq<Event>, i: nat, j: nat)
    requires IsRun(states, events) && Enqueuing(states, events, i, j) && j < |events| && states[j + 1].producer.Ready?
    ensures var before, after := Puts(states, events, i), Puts(states, events, j + 1);
            after == before + [events[i].item] || (after == before && RefusedWithin(states, events, i, j + 1))
  {
    hide Inv, Do, CanDo, Refused, GivingUp;
    NothingPublishedYet(states, events, i, j);
    EveryReachableStateIsSound(states, events, j);
    OutcomeOfStep(states[j], events[j]);
  }

  /** How many steps of its own the producer is from the end of its call, at most. */
  function StepsLeft(p: Producer): nat {
    match p
    case Ready => 0
    case LoadHead(_) => 9
    case CheckEntry(_) => 8
    case GrowIndex(_) => 7
    case StoreKey(_) => 6
    case StoreIndexTail(_) => 5
    case TakeBlock(_) => 4
    case StoreValue(_, _) => 3
    case Rewind => 2
    case ClearEntry => 1
    case StoreItem(_) => 2
    case StoreTail(_) => 1
  }

  /** Every step of the producer brings its call nearer to its end, whatever the allocators answer;
      no other step takes it back. */
  lemma EnqueueGoesOn(q: Queue, e: Event)
    requires CanDo(q, e) && !q.producer.Ready?
    ensures if e.Produce? then StepsLeft(Do(q, e).producer) < StepsLeft(q.producer) else Do(q, e).producer == q.producer
  {
    if e.Produce? {
      hide DoProduce;
      ProducerGoesOn(q, e.block, e.grown);
    } else {
      OnlyProducerMoves(q, e);
    }
  }

  /** The index is enlarged only when it is full of blocks that are still out: the one a whole round
      before the block to come has not been given back. */
  lemma GrowsOnlyIfFull(q: Queue)
    requires Inv(q) && q.producer.CheckEntry? && AfterCheck(q, q.producer.item).GrowIndex?
    ensures var p := |q.blockOf| - Current(q.headers).size; 0 <= p < |q.fates| && !Dead(q.fates[p])
  {
    P.CheckedEntry(q);
    P.NextEntry(q);
  }

  // ---------------------------------------------------------------------------
  // Dequeue
  // ---------------------------------------------------------------------------

  /** How many steps of its own a reader is from its end, at most. */
  function ReadsLeft(r: Reader): int {
    match r
    case Resting => 0
    case LoadIndex(index, end) => 5 * (end - index) + 3
    case LoadIndexTail(_, index, end) => 5 * (end - index) + 2
    case LoadKey(_, _, _, index, end) => 5 * (end - index) + 1
    case LoadValue(_, _, index, end) => 5 * (end - index)
    case ReadItem(_, _, _, _, index, stop, end) => 5 * (end - stop) + (stop - index) + 3
    case AddEmpty(_, _, _, _, stop, end) => 5 * (end - stop) + 3
    case NullEntry(_, _, _, _, stop, end) => 5 * (end - stop) + 2
    case ReturnBlock(_, _, _, _, stop, end) => 5 * (end - stop) + 1
  }

  lemma ReadersInOrder(q: Queue, t: Thread)
    requires Inv(q) && !ReaderOf(q, t).Resting?
    ensures var r := ReaderOf(q, t);
            match r
            case LoadIndex(index, end) => index < end && q.headers != []
            case LoadIndexTail(_, index, end) => index < end
            case LoadKey(_, _, _, index, end) => index < end
            case LoadValue(_, _, index, end) => index < Stop(index, end) <= end
            case ReadItem(_, _, _, first, index, stop, end) => first <= index < stop <= end
            case AddEmpty(_, _, _, _, stop, end) => stop <= end
            case NullEntry(_, _, _, _, stop, end) => stop <= end
            case ReturnBlock(_, _, _, _, stop, end) => stop <= end
  {
    hide ProducerInv, IndexInv, BlocksInv, FatesInv, CellInv;
    var r := ReaderOf(q, t);
    C.ReaderFacts(q, t);
    if r.LoadIndex? { C.LoadIndexPlace(q, t); }
    if r.LoadValue? { StopIsBlockEndOrEnd(r.index, r.end); }
  }

  /** Every step of a dequeue that has claimed items brings it nearer to its end. */
  lemma DequeueGoesOn(q: Queue, t: Thread)
    requires Inv(q) && !ReaderOf(q, t).Resting?
    ensures 0 <= ReadsLeft(ReaderOf(DoRead(q, t, ReaderOf(q, t)), t)) < ReadsLeft(ReaderOf(q, t))
  {
    hide Inv, CellsWith, WithValue, LookupSlot, Stop, WithFate;
    ReadersInOrder(q, t);
  }

  /** A dequeue that is through has delivered everything it claimed. */
  lemma ThroughMeansDelivered(q: Queue, t: Thread, i: nat)
    requires Inv(q) && ReaderOf(q, t).Resting? && i < q.claims.head && OwnerOf(q, i) == t
    ensures i < |q.items| && i in q.delivered && q.delivered[i] == q.items[i]
  {
    hide ProducerInv, IndexInv, BlocksInv, FatesInv, CellInv;
    assert i !in Waiting(q);
  }
}
