/** What one call of `enqueue` or `dequeue` on an explicit producer comes to, whatever the others
    do meanwhile. */
module ExplicitQueueCalls {
  import opened Collections
  import opened Words
  import opened BlockIndex
  import opened ExplicitQueue
  import opened ExplicitQueueInvariant
  import opened ExplicitQueueTheorems
  import C = ExplicitQueueConsumers
  import Claims

  // ---------------------------------------------------------------------------
  // Enqueue
  // ---------------------------------------------------------------------------

  /** A step at which the code may give an item back to its caller: an allocator refuses, or the
      true tail would get half the range ahead of the true head. */
  predicate Refused(q: Queue, e: Event) {
    e.Produce? &&
    match q.producer
    case LoadHead(_) => q.claims.tail + BLOCK_SIZE - q.claims.head >= HALF
    case GrowIndex(_) => !e.grown
    case TakeBlock(_) => e.block.None?
    case _ => false
  }

  /** The producer is inside one call from event i on. */
  ghost predicate Enqueuing(states: seq<Queue>, events: seq<Event>, i: nat, j: nat) {
    && i < j < |states| && i < |events| && events[i].Enqueue?
    && forall k :: i < k <= j ==> !states[k].producer.Ready?
  }

  lemma RoomCheck(q: Queue)
    requires Inv(q)
    ensures CircularLess(Word(q.claims.head), Word(q.claims.tail + BLOCK_SIZE)) <==>
            q.claims.tail + BLOCK_SIZE - q.claims.head < HALF
  {
    TailNeverLapsHead(q);
    CircularLessIsLess(q.claims.head, q.claims.tail + BLOCK_SIZE);
  }

  /** The producer's place and the tail change only by its own steps. */
  lemma OnlyProducerMoves(q: Queue, e: Event)
    requires CanDo(q, e) && !q.producer.Ready? && !e.Produce?
    ensures Do(q, e).producer == q.producer && Do(q, e).claims.tail == q.claims.tail
  {
    if e.Consume? { hide DoRead, DoClaims; ConsumeLeavesProducer(q, e.t); }
  }

  lemma OutcomeOfStep(q: Queue, e: Event)
    requires Inv(q) && CanDo(q, e) && !q.producer.Ready?
    ensures var q' := Do(q, e);
            if !q'.producer.Ready? then q'.claims.tail == q.claims.tail && !e.Enqueue?
            else q'.claims.tail == q.claims.tail + 1 || (q'.claims.tail == q.claims.tail && Refused(q, e))
  {
    if e.Produce? {
      ProducerGoesOn(q, e.block, e.grown);
      RoomCheck(q);
    } else {
      OnlyProducerMoves(q, e);
    }
  }

  lemma CallKeepsTail(q: Queue, item: Item)
    ensures DoEnqueue(q, item).claims == q.claims
  {
  }

  lemma {:induction false} NothingPublishedYet(states: seq<Queue>, events: seq<Event>, i: nat, j: nat)
    requires IsRun(states, events) && Enqueuing(states, events, i, j)
    ensures states[j].claims.tail == states[i].claims.tail
    ensures Given(events, j) == events[i].item && Puts(states, events, j) == Puts(states, events, i)
    decreases j
  {
    hide Inv, Do, CanDo;
    if j == i + 1 {
      CallKeeps(states[i], events[i]);
    } else {
      NothingPublishedYet(states, events, i, j - 1);
      EveryReachableStateIsSound(states, events, j - 1);
      OutcomeOfStep(states[j - 1], events[j - 1]);
    }
  }

  lemma CallKeeps(q: Queue, e: Event)
    requires CanDo(q, e) && e.Enqueue?
    ensures Do(q, e).claims == q.claims
  {
    CallKeepsTail(q, e.item);
  }

  /** In every run a call of `enqueue` that has ended has published its caller's item, once and at
      the end, or has published nothing because it was refused. */
  lemma EnqueuePublishesOrIsRefused(states: seq<Queue>, events: seq<Event>, i: nat, j: nat)
    requires IsRun(states, events) && Enqueuing(states, events, i, j) && j < |events| && states[j + 1].producer.Ready?
    ensures var before, after := Puts(states, events, i), Puts(states, events, j + 1);
            after == before + [events[i].item] || (after == before && Refused(states[j], events[j]))
  {
    hide Inv, Do, CanDo;
    NothingPublishedYet(states, events, i, j);
    EveryReachableStateIsSound(states, events, j);
    OutcomeOfStep(states[j], events[j]);
  }

  /** How many steps of its own the producer is from the end of its call, at most. */
  function StepsLeft(p: Producer): nat {
    match p
    case Ready => 0
    case CheckFlag(_, j) => 8 + (if j < BLOCK_SIZE then BLOCK_SIZE - j else 0)
    case LoadHead(_) => 8
    case GrowIndex(_) => 7
    case TakeBlock(_) => 6
    case StoreBase(_) => 5
    case StoreBlock(_) => 4
    case StoreFront(_) => 3
    case StoreItem(_) => 2
    case StoreTail(_) => 1
  }

  /** Every step of the producer brings its call nearer to its end, whatever the allocators answer;
      no other step takes it back. */
  lemma EnqueueGoesOn(q: Queue, e: Event)
    requires Inv(q) && CanDo(q, e) && !q.producer.Ready?
    ensures StepsLeft(q.producer) <= 8 + BLOCK_SIZE
    ensures if e.Produce? then StepsLeft(Do(q, e).producer) < StepsLeft(q.producer) else Do(q, e).producer == q.producer
  {
    if e.Produce? { ProducerGoesOn(q, e.block, e.grown); } else { OnlyProducerMoves(q, e); }
  }

  // ---------------------------------------------------------------------------
  // Reuse of blocks
  // ---------------------------------------------------------------------------

  /** There is a block ahead, and not all its items are finished. */
  ghost predicate AheadInUse(q: Queue) {
    |q.blockOf| > 0 && exists i: nat :: i / BLOCK_SIZE == First(q) && !Done(q, i)
  }

  /** The producer has passed by the block ahead, for a good reason. */
  predicate PastReuse(p: Producer) { p.LoadHead? || p.GrowIndex? || p.TakeBlock? }

  lemma FlagDownMeansInUse(q: Queue, j: nat)
    requires Inv(q) && q.producer.CheckFlag? && j < BLOCK_SIZE && !FlagAt(q, Next(q, q.tailBlock), j)
    ensures AheadInUse(q)
  {
    EmptyExactlyWhenFinished(q);
    assert !FlagIn(q.flags, Next(q, q.tailBlock), j);
  }

  lemma PassesByInUse(q: Queue, e: Event)
    requires Inv(q) && CanDo(q, e) && !q.producer.Ready?
    ensures PastReuse(Do(q, e).producer) ==> PastReuse(q.producer) || AheadInUse(q)
    ensures q.producer.CheckFlag? ==> |q.blockOf| > 0
  {
    if e.Produce? {
      ProducerGoesOn(q, e.block, e.grown);
      if q.producer.CheckFlag? && !FlagAt(q, Next(q, q.tailBlock), q.producer.j) { FlagDownMeansInUse(q, q.producer.j); }
    } else {
      OnlyProducerMoves(q, e);
    }
  }

  /** In every run `enqueue` goes past the block ahead, to the allocators, only if there is none
      or if an item of it was still unfinished at some moment of the call. */
  lemma {:induction false} AsksOnlyIfAheadInUse(states: seq<Queue>, events: seq<Event>, i: nat, j: nat)
    requires IsRun(states, events) && Enqueuing(states, events, i, j) && PastReuse(states[j].producer)
    ensures states[i].blockOf == [] || exists k :: i < k < j && AheadInUse(states[k])
    decreases j
  {
    hide Inv, Do, CanDo, AheadInUse;
    if j == i + 1 {
      EveryReachableStateIsSound(states, events, i);
      CallLooksAhead(states[i], events[i]);
    } else {
      EveryReachableStateIsSound(states, events, j - 1);
      PassesByInUse(states[j - 1], events[j - 1]);
      if PastReuse(states[j - 1].producer) { AsksOnlyIfAheadInUse(states, events, i, j - 1); }
    }
  }

  lemma CallLooksAhead(q: Queue, e: Event)
    requires Inv(q) && CanDo(q, e) && e.Enqueue?
    ensures PastReuse(Do(q, e).producer) ==> q.blockOf == []
  {
  }

  // ---------------------------------------------------------------------------
  // Dequeue
  // ---------------------------------------------------------------------------

  /** How many steps of its own a reader is from its end. */
  function ReadsLeft(r: Reader): int {
    match r
    case Resting => 0
    case LoadIndex(index, end) => 3 * (end - index) + 3
    case LoadFront(_, index, end) => 3 * (end - index) + 2
    case LoadBase(_, _, _, index, end) => 3 * (end - index) + 1
    case LoadBlock(_, _, index, end) => 3 * (end - index)
    case ReadItem(_, _, _, first, index, stop, end) => 3 * (end - stop) + (stop - index) + (stop - first)
    case SetEmpty(_, _, _, first, k, stop, end) => 3 * (end - stop) + (k - first)
  }

  lemma ReadersInOrder(q: Queue, t: Thread)
    requires Inv(q) && !ReaderOf(q, t).Resting?
    ensures var r := ReaderOf(q, t);
            match r
            case LoadIndex(index, end) => index < end && q.headers != []
            case LoadFront(_, index, end) => index < end
            case LoadBase(_, _, _, index, end) => index < end
            case LoadBlock(_, _, index, end) => index < Stop(index, end) <= end
            case ReadItem(_, _, _, first, index, stop, end) => first <= index < stop <= end
            case SetEmpty(_, _, _, first, k, stop, end) => first < k <= stop <= end
  {
    var r := ReaderOf(q, t);
    assert ReaderInv(q, t);
    C.UnmarkedInRing(q, t, Start(r));
    if r.LoadBlock? { StopIsBlockEndOrEnd(r.index, r.end); }
  }

  /** Every step of a dequeue that has claimed items brings it nearer to its end. */
  lemma DequeueGoesOn(q: Queue, t: Thread)
    requires Inv(q) && !ReaderOf(q, t).Resting?
    ensures 0 <= ReadsLeft(ReaderOf(DoRead(q, t, ReaderOf(q, t)), t)) < ReadsLeft(ReaderOf(q, t))
  {
    hide Inv, SetCell, SetFlag, LookupSlot, Stop;
    ReadersInOrder(q, t);
  }

  /** A dequeue that is through has delivered everything it claimed. */
  lemma ThroughMeansDelivered(q: Queue, t: Thread, i: nat)
    requires Inv(q) && ReaderOf(q, t).Resting? && i < q.claims.head && OwnerOf(q, i) == t
    ensures i < |q.items| && i in q.delivered && q.delivered[i] == q.items[i]
  {
    assert !Unread(ReaderOf(q, q.owner[i]), i);
  }
}
