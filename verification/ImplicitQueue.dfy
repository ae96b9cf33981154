/** One implicit producer and any number of consumers: blocks are found through a block index
    whose entries are shared by all its sizes, counted empty by their consumers, and returned
    to the free list by the consumer that completes the count. Every atomic access, and every
    plain access to memory that consumers also touch, is one step; stretches that only touch
    memory private to the producer are folded into the step before them. Reads that would
    fall outside the allocated memory get a default: the invariant shows that none happens. */
module ImplicitQueue {
  import opened Arithmetic
  import opened Collections
  import opened Words
  import opened BlockIndex
  import Claims

  type Thread = Claims.Thread
  type Block = nat
  type Ref = nat
  type Item = int

  const NULL: Block := 0
  const INITIAL_INDEX_SIZE: nat := 32
  const INVALID_BLOCK_BASE: int := 1

  /** A `BlockIndexEntry`: the base index of a block, as a word, and the block. */
  datatype Entry = Entry(key: int, value: Block)

  /** A `BlockIndexHeader`: `index` points to entries, which later headers share. Auxiliary:
      `start` is the block number whose slot is 0; the slots of block numbers `lo` to `top`
      point to the entries of these blocks; `at` is the block number behind `tail`. */
  datatype Header = Header(size: nat, tail: int, index: seq<Ref>, start: nat, lo: nat, top: int, at: int)

  /** The next step of `enqueue`, with the item it carries. */
  datatype Producer =
    | Ready
    | LoadHead(item: Item)
    | CheckEntry(item: Item)
    | GrowIndex(item: Item)
    | StoreKey(item: Item)
    | StoreIndexTail(item: Item)
    | TakeBlock(item: Item)
    | StoreValue(item: Item, b: Block)
    | Rewind
    | ClearEntry
    | StoreItem(item: Item)
    | StoreTail(item: Item)

  /** The next step of `dequeue` or `dequeue_bulk` once indices `index` up to `end` are
      claimed. `h` names the header the consumer loaded; `seen` is auxiliary: the block
      number behind the tail it loaded. */
  datatype Reader =
    | Resting
    | LoadIndex(index: nat, end: nat)
    | LoadIndexTail(h: nat, index: nat, end: nat)
    | LoadKey(h: nat, f: int, seen: int, index: nat, end: nat)
    | LoadValue(h: nat, slot: int, index: nat, end: nat)
    | ReadItem(h: nat, slot: int, b: Block, first: nat, index: nat, stop: nat, end: nat)
    | AddEmpty(h: nat, slot: int, b: Block, first: nat, stop: nat, end: nat)
    | NullEntry(h: nat, slot: int, b: Block, first: nat, stop: nat, end: nat)
    | ReturnBlock(h: nat, slot: int, b: Block, first: nat, stop: nat, end: nat)

  /** How far a block has got: in use, counted empty by t, taken out of the index by t, or
      given back to the free list. */
  datatype Fate = Open | Full(t: Thread) | Nulled(t: Thread) | Returned

  /** From `items` on the fields are auxiliary, read by no step: the items in the order they
      were put in; block, fate and entry of every block number (the entry also of the next
      number, once its key is stored); who claimed an index; what was delivered for it. */
  datatype Queue = Queue(
    claims: Claims.State,
    entries: seq<Entry>, headers: seq<Header>,
    counts: map<Block, nat>, cells: map<Block, seq<Option<Item>>>, tailBlock: Block,
    producer: Producer, readers: map<Thread, Reader>,
    items: seq<Item>, blockOf: seq<Block>, fates: seq<Fate>, entryOf: seq<Ref>,
    owner: seq<Thread>, delivered: map<nat, Item>)

  /** What the memory of entries just allocated happens to hold. */
  type Garbage = seq<Block>

  /** Constructed, with the first index allocated or not. */
  function Init(indexed: bool, garbage: Garbage): Queue {
    var q := Queue(Claims.INIT, [], [], map[], map[], NULL, Ready, map[], [], [], [], [], [], map[]);
    if indexed then NewBlockIndex(q, garbage) else q
  }

  datatype Event =
    | Enqueue(item: Item)
    | Produce(block: Option<Block>, grown: Option<Garbage>)   // what the allocators answer, if asked
    | CallDequeue(t: Thread, kind: Claims.Kind)
    | Consume(t: Thread)

  // ---------------------------------------------------------------------------
  // Memory
  // ---------------------------------------------------------------------------

  function CountIn(counts: map<Block, nat>, b: Block): nat { if b in counts then counts[b] else 0 }
  function CellsWith(cells: map<Block, seq<Option<Item>>>, b: Block, j: int, c: Option<Item>): map<Block, seq<Option<Item>>> {
    if b in cells && 0 <= j < |cells[b]| then cells[b := cells[b][j := c]] else cells
  }
  function ReaderOf(q: Queue, t: Thread): Reader { if t in q.readers then q.readers[t] else Resting }
  function OwnerOf(q: Queue, i: nat): Thread { if i < |q.owner| then q.owner[i] else 0 }
  function HeaderAt(headers: seq<Header>, h: nat): Header {
    if h < |headers| then headers[h] else Header(0, 0, [], 0, 0, -1, -1)
  }
  function Current(headers: seq<Header>): Header {
    if headers == [] then HeaderAt(headers, 0) else headers[|headers| - 1]
  }
  function WithCurrent(headers: seq<Header>, hd: Header): seq<Header> {
    if headers == [] then headers else headers[|headers| - 1 := hd]
  }
  function RefAt(hd: Header, f: int): Ref { if 0 <= f < |hd.index| then hd.index[f] else 0 }
  function EntryAt(entries: seq<Entry>, r: Ref): Entry { if r < |entries| then entries[r] else Entry(INVALID_BLOCK_BASE, NULL) }
  function WithKey(entries: seq<Entry>, r: Ref, key: int): seq<Entry> {
    if r < |entries| then entries[r := entries[r].(key := key)] else entries
  }
  function WithValue(entries: seq<Entry>, r: Ref, b: Block): seq<Entry> {
    if r < |entries| then entries[r := entries[r].(value := b)] else entries
  }

  function Move(q: Queue, p: Producer): Queue { q.(producer := p) }
  function Goto(q: Queue, t: Thread, r: Reader): Queue { q.(readers := q.readers[t := r]) }

  // ---------------------------------------------------------------------------
  // The producer
  // ---------------------------------------------------------------------------

  /** The slot behind the index tail, and the entry it points to. */
  function NewTail(q: Queue): int { Mod(Current(q.headers).tail + 1, Current(q.headers).size) }
  function NewRef(q: Queue): Ref { RefAt(Current(q.headers), NewTail(q)) }

  /** The entry the tail points to, where `idxEntry` points while its block is not stored. */
  function TailRef(q: Queue): Ref { RefAt(Current(q.headers), Current(q.headers).tail) }

  /** The index array of `new_block_index`: the old one from behind its tail, all round, and
      then the new entries. */
  function GrownSlot(prev: Header, unused: nat, i: nat): Ref {
    if i < prev.size then RefAt(prev, Mod(prev.tail + 1 + i, prev.size)) else unused + (i - prev.size)
  }

  function NewBlockIndex(q: Queue, garbage: Garbage): Queue {
    var prev := Current(q.headers);
    var n := if q.headers == [] then INITIAL_INDEX_SIZE else 2 * prev.size;
    var index := seq(n, i requires i >= 0 => GrownSlot(prev, |q.entries|, i));
    var added := seq(n - prev.size, i requires i >= 0 => Entry(INVALID_BLOCK_BASE, if i < |garbage| then garbage[i] else NULL));
    var start := Max(0, |q.blockOf| - prev.size);
    q.(entries := q.entries + added,
       headers := q.headers + [Header(n, Mod(prev.size - 1, n), index, start, start, |q.blockOf| - 1, |q.blockOf| - 1)])
  }

  function DoEnqueue(q: Queue, item: Item): Queue {
    Move(q, if Word(q.claims.tail) % BLOCK_SIZE != 0 then StoreItem(item) else LoadHead(item))
  }

  /** `insert_block_index_entry`: the next entry is free if it never had a block or has lost
      it. */
  function AfterCheck(q: Queue, item: Item): Producer {
    var entry := EntryAt(q.entries, NewRef(q));
    if q.headers == [] then Ready
    else if entry.key == INVALID_BLOCK_BASE || entry.value == NULL then StoreKey(item)
    else GrowIndex(item)
  }

  /** The steps before the block is known. */
  function DoFindEntry(q: Queue, grown: Option<Garbage>): (q': Queue)
    ensures q' == q.(producer := q'.producer, entries := q'.entries, headers := q'.headers)
  {
    match q.producer
    case LoadHead(item) =>
      Move(q, if CircularLess(Word(q.claims.head), Word(q.claims.tail + BLOCK_SIZE)) then CheckEntry(item) else Ready)
    case CheckEntry(item) => Move(q, AfterCheck(q, item))
    case GrowIndex(item) => if grown.Some? then Move(NewBlockIndex(q, grown.value), StoreKey(item)) else Move(q, Ready)
    case _ => q
  }

  /** The stores that key the entry and move the index tail to it. */
  function DoKeyEntry(q: Queue): (q': Queue)
    ensures q' == q.(producer := q'.producer, entries := q'.entries, headers := q'.headers, entryOf := q'.entryOf)
  {
    match q.producer
    case StoreKey(item) =>
      var hd := Current(q.headers);
      var keyed := |q.blockOf| + 1;
      Move(q.(entries := WithKey(q.entries, NewRef(q), Word(q.claims.tail)),
              headers := WithCurrent(q.headers, hd.(lo := Max(hd.lo, keyed - hd.size), top := |q.blockOf|)),
              entryOf := q.entryOf[..Min(|q.entryOf|, |q.blockOf|)] + [NewRef(q)]),
           StoreIndexTail(item))
    case StoreIndexTail(item) =>
      Move(q.(headers := WithCurrent(q.headers, Current(q.headers).(tail := NewTail(q), at := |q.blockOf|))), TakeBlock(item))
    case _ => q
  }

  /** The steps that take a block and enter it, or go back. */
  function DoEnterBlock(q: Queue, block: Option<Block>): (q': Queue)
    ensures q'.claims == q.claims && q'.items == q.items && q'.readers == q.readers
    ensures q.blockOf <= q'.blockOf && q.fates <= q'.fates
  {
    var hd := Current(q.headers);
    match q.producer
    case TakeBlock(item) =>
      if block.None? then Move(q, Rewind)
      else Move(q.(counts := q.counts[block.value := 0], cells := q.cells[block.value := seq(BLOCK_SIZE, _ => None)]),
                StoreValue(item, block.value))
    case StoreValue(item, b) =>
      Move(q.(entries := WithValue(q.entries, TailRef(q), b), tailBlock := b,
              blockOf := q.blockOf + [b], fates := q.fates + [Open]),
           StoreItem(item))
    case Rewind =>
      Move(q.(headers := WithCurrent(q.headers, hd.(tail := Mod(hd.tail - 1, hd.size), at := |q.blockOf| - 1))), ClearEntry)
    case ClearEntry => Move(q.(entries := WithValue(q.entries, NewRef(q), NULL)), Ready)
    case _ => q
  }

  /** The stores that put the item in and publish it. */
  function DoStoreItem(q: Queue): (q': Queue)
    ensures q' == q.(producer := q'.producer, cells := q'.cells, items := q'.items, claims := q'.claims)
    ensures q.items <= q'.items && q'.claims.head == q.claims.head
    ensures q'.claims.tail == q.claims.tail + (if q.producer.StoreTail? then 1 else 0)
  {
    match q.producer
    case StoreItem(item) =>
      Move(q.(cells := CellsWith(q.cells, q.tailBlock, Word(q.claims.tail) % BLOCK_SIZE, Some(item)), items := q.items + [item]),
           StoreTail(item))
    case StoreTail(item) => Move(q.(claims := Claims.Do(q.claims, Claims.Publish(1))), Ready)
    case _ => q
  }

  predicate FindingEntry(p: Producer) { p.LoadHead? || p.CheckEntry? || p.GrowIndex? }
  predicate KeyingEntry(p: Producer) { p.StoreKey? || p.StoreIndexTail? }

  function DoProduce(q: Queue, block: Option<Block>, grown: Option<Garbage>): Queue {
    if FindingEntry(q.producer) then DoFindEntry(q, grown)
    else if KeyingEntry(q.producer) then DoKeyEntry(q)
    else if q.producer.StoreItem? || q.producer.StoreTail? then DoStoreItem(q)
    else DoEnterBlock(q, block)
  }

  // ---------------------------------------------------------------------------
  // The consumers
  // ---------------------------------------------------------------------------

  /** One step of the claim protocol, which starts the reading when it is the claim, be it of
      no items at all. */
  function DoClaims(q: Queue, t: Thread): Queue
    requires Claims.Enabled(q.claims, Claims.Step(t))
  {
    var p, c := Claims.PcOf(q.claims, t), Claims.Do(q.claims, Claims.Step(t));
    if p.Claim? then
      Goto(q.(claims := c, owner := q.owner + seq(p.grant, _ => t)),
           t, LoadIndex(q.claims.head, q.claims.head + p.grant))
    else q.(claims := c)
  }

  function DoLookup(q: Queue, t: Thread, r: Reader): Queue {
    Goto(q, t, match r
               case LoadIndex(index, end) => if q.headers == [] then r else LoadIndexTail(|q.headers| - 1, index, end)
               case LoadIndexTail(h, index, end) => LoadKey(h, HeaderAt(q.headers, h).tail, HeaderAt(q.headers, h).at, index, end)
               case LoadKey(h, f, _, index, end) =>
                 var hd := HeaderAt(q.headers, h);
                 var key := EntryAt(q.entries, RefAt(hd, f)).key;
                 LoadValue(h, if IsCapacity(hd.size) then LookupSlot(Word(index), key, f, hd.size) else 0, index, end)
               case LoadValue(h, slot, index, end) =>
                 var b := EntryAt(q.entries, RefAt(HeaderAt(q.headers, h), slot)).value;
                 var stop := Stop(index, end);
                 if index == stop then AddEmpty(h, slot, b, index, stop, end) else ReadItem(h, slot, b, index, index, stop, end)
               case _ => r)
  }

  function DoReadItem(q: Queue, t: Thread, r: Reader): Queue
    requires r.ReadItem?
  {
    var c := CellIn(q.cells, r.b, Word(r.index) % BLOCK_SIZE);
    Goto(q.(cells := CellsWith(q.cells, r.b, Word(r.index) % BLOCK_SIZE, None),
            delivered := if c.Some? then q.delivered[r.index := c.value] else q.delivered),
         t, if r.index + 1 == r.stop then AddEmpty(r.h, r.slot, r.b, r.first, r.stop, r.end) else r.(index := r.index + 1))
  }

  /** On to the next block of the claimed range, if any. */
  function NextBlock(h: nat, slot: int, stop: nat, end: nat, size: nat): Reader {
    if stop == end then Resting else LoadValue(h, Mod(slot + 1, size), stop, end)
  }

  function WithFate(fates: seq<Fate>, p: nat, f: Fate): seq<Fate> { if p < |fates| then fates[p := f] else fates }

  /** The block's count once the reader's items of it are counted. */
  function NewCount(q: Queue, r: Reader): nat
    requires r.AddEmpty?
  {
    CountIn(q.counts, r.b) + (if r.first <= r.stop then r.stop - r.first else 0)
  }

  /** `set_many_empty`: the consumer that completes the count gives the block back. */
  function DoCount(q: Queue, t: Thread, r: Reader): Queue
    requires r.AddEmpty?
  {
    if NewCount(q, r) == BLOCK_SIZE then CountLast(q, t, r) else CountSome(q, t, r)
  }

  function CountLast(q: Queue, t: Thread, r: Reader): Queue
    requires r.AddEmpty?
  {
    q.(counts := q.counts[r.b := NewCount(q, r)], fates := WithFate(q.fates, r.first / BLOCK_SIZE, Full(t)),
       readers := q.readers[t := NullEntry(r.h, r.slot, r.b, r.first, r.stop, r.end)])
  }

  function CountSome(q: Queue, t: Thread, r: Reader): Queue
    requires r.AddEmpty?
  {
    q.(counts := q.counts[r.b := NewCount(q, r)],
       readers := q.readers[t := NextBlock(r.h, r.slot, r.stop, r.end, HeaderAt(q.headers, r.h).size)])
  }

  function DoNull(q: Queue, t: Thread, r: Reader): Queue
    requires r.NullEntry?
  {
    q.(entries := WithValue(q.entries, RefAt(HeaderAt(q.headers, r.h), r.slot), NULL),
       fates := WithFate(q.fates, r.first / BLOCK_SIZE, Nulled(t)),
       readers := q.readers[t := ReturnBlock(r.h, r.slot, r.b, r.first, r.stop, r.end)])
  }

  function DoReturn(q: Queue, t: Thread, r: Reader): Queue
    requires r.ReturnBlock?
  {
    q.(fates := WithFate(q.fates, r.first / BLOCK_SIZE, Returned),
       readers := q.readers[t := NextBlock(r.h, r.slot, r.stop, r.end, HeaderAt(q.headers, r.h).size)])
  }

  function DoRead(q: Queue, t: Thread, r: Reader): Queue {
    match r
    case ReadItem(_, _, _, _, _, _, _) => DoReadItem(q, t, r)
    case AddEmpty(_, _, _, _, _, _) => DoCount(q, t, r)
    case NullEntry(_, _, _, _, _, _) => DoNull(q, t, r)
    case ReturnBlock(_, _, _, _, _, _) => DoReturn(q, t, r)
    case _ => DoLookup(q, t, r)
  }

  // ---------------------------------------------------------------------------
  // Steps
  // ---------------------------------------------------------------------------

  /** Some block number not yet given back has this block. */
  predicate InUse(blockOf: seq<Block>, fates: seq<Fate>, b: Block) {
    exists p: nat :: p < |blockOf| && p < |fates| && blockOf[p] == b && !fates[p].Returned?
  }

  predicate Possible(q: Queue, e: Event) {
    match e
    case Enqueue(_) => q.producer.Ready?
    case Produce(block, grown) =>
      && !q.producer.Ready?
      // requisition_block hands out no block that is in use
      && (q.producer.TakeBlock? && block.Some? ==> block.value != NULL && !InUse(q.blockOf, q.fates, block.value))
      // no allocator grants 2^63 bytes or more, and doubling an index takes 32 for each slot it has
      && (q.producer.GrowIndex? && grown.Some? ==> IsCapacity(4 * Current(q.headers).size))
    case CallDequeue(t, kind) => ReaderOf(q, t).Resting? && Claims.Enabled(q.claims, Claims.CallDequeue(t, kind))
    case Consume(t) => !ReaderOf(q, t).Resting? || Claims.Enabled(q.claims, Claims.Step(t))
  }

  /** With the claim protocol's assumption on its words, and claims of at least one item. */
  predicate CanDo(q: Queue, e: Event) {
    && Possible(q, e)
    && (e.Consume? && ReaderOf(q, e.t).Resting? ==>
          Claims.InWindow(q.claims, Claims.Step(e.t)) && !Claims.PcOf(q.claims, e.t).ClaimsNothing())
  }

  function Do(q: Queue, e: Event): Queue
    requires Possible(q, e)
  {
    match e
    case Enqueue(item) => DoEnqueue(q, item)
    case Produce(block, grown) => DoProduce(q, block, grown)
    case CallDequeue(t, kind) => q.(claims := Claims.Do(q.claims, Claims.CallDequeue(t, kind)))
    case Consume(t) => if ReaderOf(q, t).Resting? then DoClaims(q, t) else DoRead(q, t, ReaderOf(q, t))
  }
}
