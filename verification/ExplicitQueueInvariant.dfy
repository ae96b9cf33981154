/** The invariant of the explicit producer's queue. */
module ExplicitQueueInvariant {
  import opened Arithmetic
  import opened Collections
  import opened Words
  import opened BlockIndex
  import opened ExplicitQueue
  import Claims

  predicate BlockShape(flags: map<Block, seq<bool>>, cells: map<Block, seq<Option<Item>>>, b: Block) {
    && b != NULL
    && b in flags && |flags[b]| == BLOCK_SIZE
    && b in cells && |cells[b]| == BLOCK_SIZE
  }

  function After(first: int, blockOf: seq<Block>, p: nat): int { if p + 1 < |blockOf| then p + 1 else first }

  /** The circular list runs through the blocks numbered `first` up, all different. */
  ghost predicate Circle(next: map<Block, Block>, first: int, blockOf: seq<Block>) {
    && 0 <= first <= |blockOf|
    && (forall p: nat :: first <= p < |blockOf| ==> NextIn(next, blockOf[p]) == blockOf[After(first, blockOf, p)])
    && (forall p: nat, r: nat :: first <= p < r < |blockOf| ==> blockOf[p] != blockOf[r])
  }

  ghost predicate Shapes(flags: map<Block, seq<bool>>, cells: map<Block, seq<Option<Item>>>, first: int, blockOf: seq<Block>) {
    forall p: nat :: first <= p < |blockOf| ==> BlockShape(flags, cells, blockOf[p])
  }

  ghost predicate RingInv(q: Queue) {
    && Circle(q.next, First(q), q.blockOf) && Shapes(q.flags, q.cells, First(q), q.blockOf)
    && (q.tailBlock == NULL <==> |q.blockOf| == 0)
    && (|q.blockOf| > 0 ==> q.slotsUsed > 0 && q.tailBlock == q.blockOf[|q.blockOf| - 1])
  }

  predicate Linking(p: Producer) { p.StoreBase? || p.StoreBlock? || p.StoreFront? }

  /** How many block numbers have their index entry published. */
  function Filled(q: Queue): int { |q.blockOf| - if Linking(q.producer) then 1 else 0 }

  ghost predicate FlagsUpTo(flags: map<Block, seq<bool>>, b: Block, j: nat) {
    forall i :: 0 <= i < j ==> FlagIn(flags, b, i)
  }

  ghost predicate ProducerInv(q: Queue) {
    var n, tail := |q.blockOf| * BLOCK_SIZE, q.claims.tail;
    && |q.items| == tail + (if q.producer.StoreTail? then 1 else 0)
    && match q.producer
       case Ready => tail <= n < tail + BLOCK_SIZE
       case CheckFlag(_, j) =>
         && tail == n && |q.blockOf| > 0 && j < BLOCK_SIZE
         && FlagsUpTo(q.flags, Next(q, q.tailBlock), j)
       case LoadHead(_) => tail == n
       case GrowIndex(_) => tail == n && (q.headers == [] || q.slotsUsed == q.indexSize)
       case TakeBlock(_) => tail == n && q.headers != [] && q.slotsUsed < q.indexSize
       case StoreBase(_) => n > 0 && tail == n - BLOCK_SIZE
       case StoreBlock(_) => n > 0 && tail == n - BLOCK_SIZE
       case StoreFront(_) => n > 0 && tail == n - BLOCK_SIZE
       case StoreItem(_) => n - BLOCK_SIZE <= tail < n
       case StoreTail(item) => n - BLOCK_SIZE <= tail < n && q.items[tail] == item
  }

  ghost predicate EntryIs(hd: Header, p: int, blockOf: seq<Block>)
    requires hd.size > 0 && |hd.base| == |hd.block| == hd.size && 0 <= p < |blockOf|
  {
    var slot := SlotOf(hd.start, hd.size, p);
    hd.base[slot] == Word(p * BLOCK_SIZE) && hd.block[slot] == blockOf[p]
  }

  /** The intact entries of a header name the right blocks. */
  ghost predicate HeaderInv(hd: Header, blockOf: seq<Block>) {
    && IsCapacity(hd.size) && |hd.base| == |hd.block| == hd.size
    && hd.start <= hd.lo && hd.hi < |blockOf| && hd.hi < hd.lo + hd.size
    && (hd.lo <= hd.hi ==> hd.front == SlotOf(hd.start, hd.size, hd.hi))
    && (forall p: nat :: hd.lo <= p <= hd.hi ==> EntryIs(hd, p, blockOf))
  }

  ghost predicate HeadersInv(headers: seq<Header>, blockOf: seq<Block>) {
    forall h :: 0 <= h < |headers| ==> HeaderInv(headers[h], blockOf)
  }

  ghost predicate IndexInv(q: Queue) {
    && HeadersInv(q.headers, q.blockOf) && IsCapacity(2 * q.indexSize)
    && (q.headers == [] ==> |q.blockOf| == 0)
    && (q.headers != [] ==>
          var hd := Current(q);
          && hd.size == q.indexSize && q.slotsUsed <= q.indexSize
          && hd.lo <= First(q) && hd.hi == Filled(q) - 1
          && q.indexFront == SlotOf(hd.start, hd.size, Filled(q))
          && (q.producer.StoreBlock? || q.producer.StoreFront? ==>
                |q.blockOf| <= hd.lo + hd.size && hd.base[q.indexFront] == Word(Filled(q) * BLOCK_SIZE))
          && (q.producer.StoreFront? ==> hd.block[q.indexFront] == q.tailBlock))
  }

  /** Claimed indices the reader has not yet marked empty, and those it has not yet read. */
  predicate Unmarked(r: Reader, i: nat) {
    match r
    case Resting => false
    case LoadIndex(index, end) => index <= i < end
    case LoadFront(_, index, end) => index <= i < end
    case LoadBase(_, _, _, index, end) => index <= i < end
    case LoadBlock(_, _, index, end) => index <= i < end
    case ReadItem(_, _, _, first, _, _, end) => first <= i < end
    case SetEmpty(_, _, _, first, k, stop, end) => first <= i < k || stop <= i < end
  }

  predicate Unread(r: Reader, i: nat) {
    match r
    case ReadItem(_, _, _, _, index, _, end) => index <= i < end
    case SetEmpty(_, _, _, _, _, stop, end) => stop <= i < end
    case _ => Unmarked(r, i)
  }

  predicate Done(q: Queue, i: nat) { i < q.claims.head && !Unmarked(ReaderOf(q, OwnerOf(q, i)), i) }

  function Flag(q: Queue, i: nat): bool
    requires i / BLOCK_SIZE < |q.blockOf|
  {
    FlagAt(q, q.blockOf[i / BLOCK_SIZE], BLOCK_SIZE - 1 - i % BLOCK_SIZE)
  }

  function Cell(q: Queue, i: nat): Option<Item>
    requires i / BLOCK_SIZE < |q.blockOf|
  {
    CellAt(q, q.blockOf[i / BLOCK_SIZE], i % BLOCK_SIZE)
  }

  /** A flag of the ring is up exactly when its index is finished, and everything that has
      left the ring is finished. */
  ghost predicate FlagInv(q: Queue) {
    forall i: nat :: i / BLOCK_SIZE < |q.blockOf| ==>
      if i / BLOCK_SIZE < First(q) then Done(q, i) else (Flag(q, i) <==> Done(q, i))
  }

  /** Item i has been put in and not been read. */
  predicate Waiting(q: Queue, i: nat) {
    i < |q.items| && (i >= q.claims.head || Unread(ReaderOf(q, OwnerOf(q, i)), i))
  }

  /** Every item not yet read lies in its slot. */
  ghost predicate CellInv(q: Queue) {
    forall i: nat :: Waiting(q, i) ==> i / BLOCK_SIZE < |q.blockOf| && Cell(q, i) == Some(q.items[i])
  }

  ghost predicate DeliveryInv(q: Queue) {
    && |q.owner| == q.claims.head <= q.claims.tail <= |q.items|
    && (forall i: nat :: i in q.delivered ==> i < q.claims.head)
    && (forall i: nat :: i < q.claims.head ==>
          if Unread(ReaderOf(q, q.owner[i]), i) then i !in q.delivered
          else i in q.delivered && q.delivered[i] == q.items[i])
  }

  /** The header a reader holds still covers block numbers p to r. */
  ghost predicate Covers(headers: seq<Header>, h: nat, p: int, r: int) {
    h < |headers| && headers[h].lo <= p && r <= headers[h].hi
  }

  /** A reader inside one block: it looks at the right block through the right slot. */
  ghost predicate InBlock(headers: seq<Header>, blockOf: seq<Block>, h: nat, slot: int, b: Block, first: nat, stop: nat, end: nat) {
    var p := first / BLOCK_SIZE;
    && Covers(headers, h, p, (end - 1) / BLOCK_SIZE)
    && slot == SlotOf(headers[h].start, headers[h].size, p)
    && p < |blockOf| && b == blockOf[p]
    && first < stop <= end && stop == (if end < (p + 1) * BLOCK_SIZE then end else (p + 1) * BLOCK_SIZE)
  }

  ghost predicate PlaceInv(headers: seq<Header>, blockOf: seq<Block>, r: Reader) {
    match r
    case Resting => true
    case LoadIndex(index, end) => index < end
    case LoadFront(h, index, end) => index < end && Covers(headers, h, index / BLOCK_SIZE, (end - 1) / BLOCK_SIZE)
    case LoadBase(h, f, seen, index, end) =>
      && index < end && Covers(headers, h, index / BLOCK_SIZE, seen) && (end - 1) / BLOCK_SIZE <= seen
      && f == SlotOf(headers[h].start, headers[h].size, seen)
    case LoadBlock(h, slot, index, end) =>
      && index < end && Covers(headers, h, index / BLOCK_SIZE, (end - 1) / BLOCK_SIZE)
      && slot == SlotOf(headers[h].start, headers[h].size, index / BLOCK_SIZE)
    case ReadItem(h, slot, b, first, index, stop, end) =>
      InBlock(headers, blockOf, h, slot, b, first, stop, end) && first <= index < stop
    case SetEmpty(h, slot, b, first, k, stop, end) =>
      InBlock(headers, blockOf, h, slot, b, first, stop, end) && first < k <= stop
  }

  function Start(r: Reader): nat {
    match r
    case Resting => 0
    case LoadIndex(index, _) => index
    case LoadFront(_, index, _) => index
    case LoadBase(_, _, _, index, _) => index
    case LoadBlock(_, _, index, _) => index
    case ReadItem(_, _, _, first, _, _, _) => first
    case SetEmpty(_, _, _, first, _, _, _) => first
  }

  ghost predicate ReaderInv(q: Queue, t: Thread) {
    var r := ReaderOf(q, t);
    && PlaceInv(q.headers, q.blockOf, r)
    && (!r.Resting? ==> Claims.PcOf(q.claims, t).Idle? && r.end <= q.claims.head && r.end - Start(r) < HALF)
    && (forall i: nat :: Unmarked(r, i) ==> i < q.claims.head && OwnerOf(q, i) == t)
  }

  ghost predicate Inv(q: Queue) {
    && Claims.Inv(q.claims)
    && RingInv(q) && ProducerInv(q) && IndexInv(q)
    && FlagInv(q) && CellInv(q) && DeliveryInv(q)
    && (forall t: Thread :: ReaderInv(q, t))
  }

  lemma IndexInitially(half: nat, indexed: bool)
    requires IsFirstHalf(half)
    ensures IndexInv(Init(half, indexed))
  {
    assert 4 * half / 2 == 2 * half;
  }

  lemma InvInitially(half: nat, indexed: bool)
    requires IsFirstHalf(half)
    ensures Inv(Init(half, indexed))
  {
    var q := Init(half, indexed);
    IndexInitially(half, indexed);
    forall t: Thread ensures ReaderInv(q, t) {
      assert ReaderOf(q, t).Resting?;
    }
  }
}
