/** One explicit producer and any number of consumers: the ring of blocks, the growing block
    index and the claim protocol together. Every atomic access, and every plain access to
    memory that consumers also touch, is one step; stretches that only touch memory private
    to the producer are folded into the step before them. Reads that would fall outside the
    allocated memory get a default: the invariant shows that none happens. */
module ExplicitQueue {
  import opened Arithmetic
  import opened Collections
  import opened Words
  import opened BlockIndex
  import Claims

  type Thread = Claims.Thread
  type Block = nat
  type Item = int

  const NULL: Block := 0
  const INITIAL_INDEX_SIZE: nat := 32

  /** A block index header with its entries. Auxiliary: `start` is the block number of slot 0,
      and the entries of block numbers `lo` to `hi` are the ones filled in and intact. */
  datatype Header = Header(size: nat, front: int, base: seq<int>, block: seq<Block>, start: nat, lo: nat, hi: int)

  /** The next step of `enqueue`, with the item it carries. */
  datatype Producer =
    | Ready
    | CheckFlag(item: Item, j: nat)
    | LoadHead(item: Item)
    | GrowIndex(item: Item)
    | TakeBlock(item: Item)
    | StoreBase(item: Item)
    | StoreBlock(item: Item)
    | StoreFront(item: Item)
    | StoreItem(item: Item)
    | StoreTail(item: Item)

  /** The next step of `dequeue` or `dequeue_bulk` once indices `index` up to `end` are
      claimed. `h` names the header the consumer loaded; `seen` is auxiliary: the block
      number behind the front it loaded. */
  datatype Reader =
    | Resting
    | LoadIndex(index: nat, end: nat)
    | LoadFront(h: nat, index: nat, end: nat)
    | LoadBase(h: nat, f: int, seen: int, index: nat, end: nat)
    | LoadBlock(h: nat, slot: int, index: nat, end: nat)
    | ReadItem(h: nat, slot: int, b: Block, first: nat, index: nat, stop: nat, end: nat)
    | SetEmpty(h: nat, slot: int, b: Block, first: nat, k: nat, stop: nat, end: nat)

  /** The last four fields are auxiliary, read by no step: the items in the order they were
      put in, the block of every block number, who claimed an index, and what was delivered
      for it. */
  datatype Queue = Queue(
    claims: Claims.State,
    next: map<Block, Block>, flags: map<Block, seq<bool>>, cells: map<Block, seq<Option<Item>>>,
    tailBlock: Block, slotsUsed: nat, indexSize: nat, indexFront: int, headers: seq<Header>,
    producer: Producer, readers: map<Thread, Reader>,
    items: seq<Item>, blockOf: seq<Block>, owner: seq<Thread>, delivered: map<nat, Item>)

  /** Half the first index's size: half the default, or more when the pool of blocks is large. */
  predicate IsFirstHalf(half: nat) { INITIAL_INDEX_SIZE / 2 <= half && IsCapacity(4 * half) }

  /** Constructed, with the first index allocated or not. */
  function Init(half: nat, indexed: bool): Queue {
    var q := Queue(Claims.INIT, map[], map[], map[], NULL, 0, half, 0, [], Ready, map[],
                   [], [], [], map[]);
    if indexed then NewBlockIndex(q) else q
  }

  datatype Event =
    | Enqueue(item: Item)
    | Produce(block: Option<Block>, grown: bool)   // what the allocators answer, if asked
    | CallDequeue(t: Thread, kind: Claims.Kind)
    | Consume(t: Thread)

  // ---------------------------------------------------------------------------
  // Memory
  // ---------------------------------------------------------------------------

  function NextIn(next: map<Block, Block>, b: Block): Block { if b in next then next[b] else NULL }
  function FlagIn(flags: map<Block, seq<bool>>, b: Block, j: int): bool { b in flags && 0 <= j < |flags[b]| && flags[b][j] }
  function Next(q: Queue, b: Block): Block { NextIn(q.next, b) }
  function FlagAt(q: Queue, b: Block, j: int): bool { FlagIn(q.flags, b, j) }
  function CellAt(q: Queue, b: Block, j: int): Option<Item> { CellIn(q.cells, b, j) }
  function SetFlag(q: Queue, b: Block, j: int): Queue {
    if b in q.flags && 0 <= j < |q.flags[b]| then q.(flags := q.flags[b := q.flags[b][j := true]]) else q
  }
  function SetCell(q: Queue, b: Block, j: int, c: Option<Item>): Queue {
    if b in q.cells && 0 <= j < |q.cells[b]| then q.(cells := q.cells[b := q.cells[b][j := c]]) else q
  }
  function ReaderOf(q: Queue, t: Thread): Reader { if t in q.readers then q.readers[t] else Resting }
  function OwnerOf(q: Queue, i: nat): Thread { if i < |q.owner| then q.owner[i] else 0 }
  function HeaderAt(q: Queue, h: nat): Header {
    if h < |q.headers| then q.headers[h] else Header(0, 0, [], [], 0, 0, -1)
  }
  function Current(q: Queue): Header { if q.headers == [] then HeaderAt(q, 0) else q.headers[|q.headers| - 1] }
  function SetCurrent(q: Queue, hd: Header): Queue {
    if q.headers == [] then q else q.(headers := q.headers[|q.headers| - 1 := hd])
  }
  function BaseAt(hd: Header, f: int): int { if 0 <= f < |hd.base| then hd.base[f] else 0 }
  function BlockAt(hd: Header, f: int): Block { if 0 <= f < |hd.block| then hd.block[f] else NULL }
  function At<T>(s: seq<T>, i: int, x: T): seq<T> { if 0 <= i < |s| then s[i := x] else s }

  function Move(q: Queue, p: Producer): Queue { q.(producer := p) }
  function Goto(q: Queue, t: Thread, r: Reader): Queue { q.(readers := q.readers[t := r]) }

  // ---------------------------------------------------------------------------
  // The producer
  // ---------------------------------------------------------------------------

  /** The k-th oldest entry in use, as the copy loop of `new_block_index` meets it. */
  function OldBase(q: Queue, k: int): int { BaseAt(Current(q), Mod(q.indexFront - q.slotsUsed + k, q.indexSize)) }
  function OldBlock(q: Queue, k: int): Block { BlockAt(Current(q), Mod(q.indexFront - q.slotsUsed + k, q.indexSize)) }

  /** `new_block_index`: twice the size, the used entries copied to its front in order. */
  function NewBlockIndex(q: Queue): Queue {
    var n := 2 * q.indexSize;
    var base := seq(n, k => if k < q.slotsUsed then OldBase(q, k) else 0);
    var block: seq<Block> := seq(n, k => NewBlockEntry(q, k));
    var first: nat := Max(0, |q.blockOf| - q.slotsUsed);
    q.(headers := q.headers + [Header(n, Word(q.slotsUsed - 1), base, block, first, first, |q.blockOf| - 1)],
       indexSize := n, indexFront := q.slotsUsed)
  }

  function NewBlockEntry(q: Queue, k: int): Block { if k < q.slotsUsed then OldBlock(q, k) else NULL }

  /** The block ahead is empty: it becomes the tail block, its flags cleared. */
  function ReuseBlock(q: Queue): Queue {
    var b := Next(q, q.tailBlock);
    q.(tailBlock := b, flags := q.flags[b := seq(BLOCK_SIZE, _ => false)], blockOf := q.blockOf + [b])
  }

  /** A block fresh from the pool is linked in behind the tail block. */
  function InsertBlock(q: Queue, b: Block): Queue {
    var linked := if q.tailBlock == NULL then q.next[b := b]
                  else q.next[b := Next(q, q.tailBlock)][q.tailBlock := b];
    q.(next := linked, flags := q.flags[b := seq(BLOCK_SIZE, _ => false)],
       cells := q.cells[b := seq(BLOCK_SIZE, _ => None)],
       tailBlock := b, slotsUsed := q.slotsUsed + 1, blockOf := q.blockOf + [b])
  }

  function DoEnqueue(q: Queue, item: Item): Queue {
    Move(q, if Word(q.claims.tail) % BLOCK_SIZE != 0 then StoreItem(item)
            else if q.tailBlock != NULL then CheckFlag(item, 0) else LoadHead(item))
  }

  predicate MakesRoom(p: Producer) { p.CheckFlag? || p.LoadHead? || p.GrowIndex? || p.TakeBlock? }

  /** The steps that find the block for the next item. */
  function DoMakeRoom(q: Queue, block: Option<Block>, grown: bool): (q': Queue)
    requires MakesRoom(q.producer)
    ensures q'.readers == q.readers && q'.owner == q.owner && q'.delivered == q.delivered
    ensures q'.items == q.items && q'.claims == q.claims
    ensures q.blockOf <= q'.blockOf && q.headers <= q'.headers
  {
    match q.producer
    case CheckFlag(item, j) =>
      if !FlagAt(q, Next(q, q.tailBlock), j) then Move(q, LoadHead(item))
      else if j + 1 < BLOCK_SIZE then Move(q, CheckFlag(item, j + 1))
      else Move(ReuseBlock(q), StoreBase(item))
    case LoadHead(item) =>
      Move(q, if !CircularLess(Word(q.claims.head), Word(q.claims.tail + BLOCK_SIZE)) then Ready
              else if q.headers == [] || q.slotsUsed == q.indexSize then GrowIndex(item)
              else TakeBlock(item))
    case GrowIndex(item) => if grown then Move(NewBlockIndex(q), TakeBlock(item)) else Move(q, Ready)
    case TakeBlock(item) => if block.Some? then Move(InsertBlock(q, block.value), StoreBase(item)) else Move(q, Ready)
  }

  /** The current header with the next entry's base, its block, and then the front stored. */
  function WithBase(q: Queue): Header {
    var hd := Current(q);
    hd.(base := At(hd.base, q.indexFront, Word(q.claims.tail)), lo := Max(hd.lo, |q.blockOf| - hd.size))
  }

  function WithBlock(q: Queue): Header {
    Current(q).(block := At(Current(q).block, q.indexFront, q.tailBlock))
  }

  function WithFront(q: Queue): Header {
    Current(q).(front := q.indexFront, hi := |q.blockOf| - 1)
  }

  /** The stores that enter the block in the index. */
  function DoStoreEntry(q: Queue): (q': Queue)
    ensures q' == q.(producer := q'.producer, headers := q'.headers, indexFront := q'.indexFront)
  {
    match q.producer
    case StoreBase(item) => Move(SetCurrent(q, WithBase(q)), StoreBlock(item))
    case StoreBlock(item) => Move(SetCurrent(q, WithBlock(q)), StoreFront(item))
    case StoreFront(item) =>
      Move(SetCurrent(q, WithFront(q)).(indexFront := Mod(q.indexFront + 1, q.indexSize)), StoreItem(item))
    case _ => q
  }

  /** The stores that put the item in and publish it. */
  function DoStoreItem(q: Queue): Queue {
    match q.producer
    case StoreItem(item) =>
      Move(SetCell(q, q.tailBlock, Word(q.claims.tail) % BLOCK_SIZE, Some(item)).(items := q.items + [item]),
           StoreTail(item))
    case StoreTail(item) => Move(q.(claims := Claims.Do(q.claims, Claims.Publish(1))), Ready)
    case _ => q
  }

  function DoProduce(q: Queue, block: Option<Block>, grown: bool): Queue {
    if MakesRoom(q.producer) then DoMakeRoom(q, block, grown)
    else if q.producer.StoreItem? || q.producer.StoreTail? then DoStoreItem(q)
    else DoStoreEntry(q)
  }

  // ---------------------------------------------------------------------------
  // The consumers
  // ---------------------------------------------------------------------------

  /** One step of the claim protocol, which starts the reading when it is the claim. */
  function DoClaims(q: Queue, t: Thread): (q': Queue)
    requires Claims.Enabled(q.claims, Claims.Step(t))
    ensures q' == q.(claims := Claims.Do(q.claims, Claims.Step(t)), readers := q'.readers, owner := q'.owner)
    ensures forall u: Thread :: u != t ==> ReaderOf(q', u) == ReaderOf(q, u)
  {
    var p, c := Claims.PcOf(q.claims, t), Claims.Do(q.claims, Claims.Step(t));
    if p.Claim? && p.grant > 0 then
      var index := q.claims.head;
      Goto(q.(claims := c, owner := q.owner + seq(p.grant, _ => t)),
           t, LoadIndex(index, index + p.grant))
    else q.(claims := c)
  }

  /** One step of a reader: it writes flags and cells, and moves nobody but itself. */
  function DoRead(q: Queue, t: Thread, r: Reader): (q': Queue)
    requires !r.Resting?
    ensures q' == q.(readers := q'.readers, flags := q'.flags, cells := q'.cells, delivered := q'.delivered)
    ensures forall u: Thread :: u != t ==> ReaderOf(q', u) == ReaderOf(q, u)
  {
    match r
    case LoadIndex(index, end) => Goto(q, t, if q.headers == [] then r else LoadFront(|q.headers| - 1, index, end))
    case LoadFront(h, index, end) => Goto(q, t, LoadBase(h, HeaderAt(q, h).front, HeaderAt(q, h).hi, index, end))
    case LoadBase(h, f, _, index, end) =>
      var hd := HeaderAt(q, h);
      var slot := if IsCapacity(hd.size) then LookupSlot(Word(index), BaseAt(hd, f), f, hd.size) else 0;
      Goto(q, t, LoadBlock(h, slot, index, end))
    case LoadBlock(h, slot, index, end) =>
      Goto(q, t, ReadItem(h, slot, BlockAt(HeaderAt(q, h), slot), index, index, Stop(index, end), end))
    case ReadItem(h, slot, b, first, index, stop, end) =>
      var c := CellAt(q, b, Word(index) % BLOCK_SIZE);
      var q' := SetCell(q, b, Word(index) % BLOCK_SIZE, None);
      Goto(q'.(delivered := if c.Some? then q.delivered[index := c.value] else q.delivered),
           t, if index + 1 == stop then SetEmpty(h, slot, b, first, stop, stop, end)
              else ReadItem(h, slot, b, first, index + 1, stop, end))
    case SetEmpty(h, slot, b, _, k, _, _) =>
      Goto(SetFlag(q, b, BLOCK_SIZE - 1 - Word(k - 1) % BLOCK_SIZE), t, AfterMark(r, HeaderAt(q, h).size))
  }

  /** Marking goes down through the block's items, then on to the next block, if any. */
  function AfterMark(r: Reader, size: nat): Reader
    requires r.SetEmpty?
  {
    if r.k > r.first + 1 then r.(k := r.k - 1)
    else if r.stop == r.end then Resting
    else LoadBlock(r.h, Mod(r.slot + 1, size), r.stop, r.end)
  }

  // ---------------------------------------------------------------------------
  // Steps
  // ---------------------------------------------------------------------------

  /** Block numbers in the ring are `First(q)` up to `|q.blockOf|`. */
  function First(q: Queue): int { |q.blockOf| - q.slotsUsed }

  predicate InRing(q: Queue, b: Block) { exists p: nat :: First(q) <= p < |q.blockOf| && q.blockOf[p] == b }

  predicate Possible(q: Queue, e: Event) {
    match e
    case Enqueue(_) => q.producer.Ready?
    case Produce(block, grown) =>
      && !q.producer.Ready?
      // requisition_block hands out no block that is in use
      && (q.producer.TakeBlock? && block.Some? ==> block.value != NULL && !InRing(q, block.value))
      // no allocator grants 2^63 bytes or more, and an index entry takes 16
      && (q.producer.GrowIndex? && grown ==> IsCapacity(4 * q.indexSize))
    case CallDequeue(t, kind) => ReaderOf(q, t).Resting? && Claims.Enabled(q.claims, Claims.CallDequeue(t, kind))
    case Consume(t) => !ReaderOf(q, t).Resting? || Claims.Enabled(q.claims, Claims.Step(t))
  }

  /** With the claim protocol's assumption on its words. */
  predicate CanDo(q: Queue, e: Event) {
    Possible(q, e) && (e.Consume? && ReaderOf(q, e.t).Resting? ==> Claims.InWindow(q.claims, Claims.Step(e.t)))
  }

  function Do(q: Queue, e: Event): Queue
    requires Possible(q, e)
  {
    match e
    case Enqueue(item) => DoEnqueue(q, item)
    case Produce(block, grown) => DoProduce(q, block, grown)
    case CallDequeue(t, kind) => q.(claims := Claims.Do(q.claims, Claims.CallDequeue(t, kind)))
    case Consume(t) => if ReaderOf(q, t).Resting? then DoClaims(q, t) else DoRead(q, t, ReaderOf(q, t))
  }
}
