/** The invariant of the implicit producer's queue. */
module ImplicitQueueInvariant {
  import opened Arithmetic
  import opened Collections
  import opened Words
  import opened BlockIndex
  import opened ImplicitQueue
  import Claims

  // ---------------------------------------------------------------------------
  // Which indices are where
  // ---------------------------------------------------------------------------

  /** Claimed indices the reader has not yet counted empty, and those it has not yet read. */
  predicate Unmarked(r: Reader, i: nat) {
    match r
    case Resting => false
    case LoadIndex(index, end) => index <= i < end
    case LoadIndexTail(_, index, end) => index <= i < end
    case LoadKey(_, _, _, index, end) => index <= i < end
    case LoadValue(_, _, index, end) => index <= i < end
    case ReadItem(_, _, _, first, _, _, end) => first <= i < end
    case AddEmpty(_, _, _, first, _, end) => first <= i < end
    case NullEntry(_, _, _, _, stop, end) => stop <= i < end
    case ReturnBlock(_, _, _, _, stop, end) => stop <= i < end
  }

  predicate Unread(r: Reader, i: nat) {
    match r
    case ReadItem(_, _, _, _, index, _, end) => index <= i < end
    case AddEmpty(_, _, _, _, stop, end) => stop <= i < end
    case _ => Unmarked(r, i)
  }

  /** Claimed indices counted empty. */
  function Finished(q: Queue): set<nat> {
    set i: nat | 0 <= i < q.claims.head && !Unmarked(ReaderOf(q, OwnerOf(q, i)), i)
  }

  /** Indices of the items put in and not read. */
  function Waiting(q: Queue): set<nat> {
    set i: nat | 0 <= i < |q.items| && (i >= q.claims.head || Unread(ReaderOf(q, OwnerOf(q, i)), i))
  }

  predicate LiesIn(i: nat, p: nat) { i / BLOCK_SIZE == p }

  function IndicesOf(p: nat): set<nat> { set i: nat | i < (p + 1) * BLOCK_SIZE && LiesIn(i, p) }

  // ---------------------------------------------------------------------------
  // Blocks
  // ---------------------------------------------------------------------------

  predicate Dead(f: Fate) { f.Nulled? || f.Returned? }

  predicate BlockShape(counts: map<Block, nat>, cells: map<Block, seq<Option<Item>>>, b: Block) {
    b != NULL && b in counts && b in cells && |cells[b]| == BLOCK_SIZE
  }

  /** Blocks not given back are all different, and count their finished indices. */
  ghost predicate BlocksInv(counts: map<Block, nat>, cells: map<Block, seq<Option<Item>>>, blockOf: seq<Block>,
                            fates: seq<Fate>, finished: set<nat>) {
    && |fates| == |blockOf|
    && (forall p: nat :: p < |blockOf| && !fates[p].Returned? ==> BlockShape(counts, cells, blockOf[p]))
    && (forall p: nat, r: nat :: p < r < |blockOf| && !fates[p].Returned? && !fates[r].Returned? ==> blockOf[p] != blockOf[r])
    && (forall p: nat :: p < |blockOf| && !fates[p].Returned? ==>
          CountIn(counts, blockOf[p]) == |IndicesOf(p) * finished|)
  }

  /** A block is open until its last index is finished. */
  ghost predicate FatesInv(fates: seq<Fate>, finished: set<nat>) {
    forall p: nat :: p < |fates| ==> (fates[p].Open? <==> !(IndicesOf(p) <= finished))
  }

  /** The one consumer that counted a block empty is the one about to give it back. */
  ghost predicate FateOwners(fates: seq<Fate>, readers: map<Thread, Reader>) {
    forall p: nat :: p < |fates| ==> FateOwner(fates[p], p, readers)
  }

  predicate FateOwner(f: Fate, p: nat, readers: map<Thread, Reader>) {
    match f
    case Full(t) => t in readers && readers[t].NullEntry? && readers[t].first / BLOCK_SIZE == p
    case Nulled(t) => t in readers && readers[t].ReturnBlock? && readers[t].first / BLOCK_SIZE == p
    case _ => true
  }

  /** Every waiting item lies in its cell. */
  ghost predicate CellInv(cells: map<Block, seq<Option<Item>>>, blockOf: seq<Block>, items: seq<Item>, waiting: set<nat>) {
    forall i :: i in waiting ==>
      && i < |items| && i / BLOCK_SIZE < |blockOf|
      && CellIn(cells, blockOf[i / BLOCK_SIZE], i % BLOCK_SIZE) == Some(items[i])
  }

  ghost predicate DeliveryInv(head: nat, tail: nat, items: seq<Item>, owner: seq<Thread>, delivered: map<nat, Item>,
                              waiting: set<nat>) {
    && |owner| == head <= tail <= |items|
    && (forall i: nat :: i in delivered ==> i < head && delivered[i] == items[i])
    && (forall i: nat :: i < head ==> (i in delivered <==> i !in waiting))
  }

  // ---------------------------------------------------------------------------
  // The index
  // ---------------------------------------------------------------------------

  ghost predicate HeaderInv(hd: Header, entryOf: seq<Ref>) {
    && IsCapacity(hd.size) && IsCapacity(2 * hd.size) && |hd.index| == hd.size
    && hd.start <= hd.lo && hd.top < |entryOf| && hd.top < hd.lo + hd.size && -1 <= hd.at <= hd.top
    && hd.tail == SlotOf(hd.start, hd.size, hd.at)
    && (forall p: nat :: hd.lo <= p <= hd.top ==> hd.index[SlotOf(hd.start, hd.size, p)] == entryOf[p])
  }

  ghost predicate HeadersInv(headers: seq<Header>, entryOf: seq<Ref>) {
    && (forall h :: 0 <= h < |headers| ==> HeaderInv(headers[h], entryOf))
    && (forall h :: 0 <= h < |headers| - 1 ==> headers[h].at == headers[h].top)
  }

  /** What the entry of a block shows. */
  function Shown(b: Block, f: Fate): Block { if Dead(f) then NULL else b }

  ghost predicate EntryInv(entries: seq<Entry>, r: Ref, p: nat, blockOf: seq<Block>, fates: seq<Fate>) {
    && r < |entries| && entries[r].key == Word(p * BLOCK_SIZE)
    && (p < |blockOf| && p < |fates| ==> entries[r].value == Shown(blockOf[p], fates[p]))
  }

  ghost predicate EntriesInv(entries: seq<Entry>, entryOf: seq<Ref>, lo: nat, blockOf: seq<Block>, fates: seq<Fate>) {
    forall p: nat :: lo <= p < |entryOf| ==> EntryInv(entries, entryOf[p], p, blockOf, fates)
  }

  /** The index array points to different entries, and those it has not come to are blank. */
  ghost predicate IndexRefs(hd: Header, entries: seq<Entry>, keyed: nat)
    requires hd.size > 0 && |hd.index| == hd.size
  {
    && (forall a, b :: 0 <= a < b < hd.size ==> hd.index[a] != hd.index[b])
    && (forall a :: 0 <= a < hd.size ==> hd.index[a] < |entries|)
    && (forall p: nat :: keyed <= p < hd.start + hd.size ==>
          EntryAt(entries, hd.index[SlotOf(hd.start, hd.size, p)]).key == INVALID_BLOCK_BASE)
  }

  ghost predicate IndexInv(entries: seq<Entry>, headers: seq<Header>, entryOf: seq<Ref>, blockOf: seq<Block>, fates: seq<Fate>) {
    && HeadersInv(headers, entryOf)
    && |blockOf| <= |entryOf| <= |blockOf| + 1
    && (headers == [] ==> |entryOf| == 0)
    && (headers != [] ==>
          var hd := Current(headers);
          && hd.top == |entryOf| - 1 && hd.start <= |blockOf|
          && hd.lo == Max(hd.start, |entryOf| - hd.size)
          && IndexRefs(hd, entries, |entryOf|)
          && EntriesInv(entries, entryOf, hd.lo, blockOf, fates)
          && (forall p: nat :: p < hd.lo && p < |fates| ==> Dead(fates[p])))
  }

  // ---------------------------------------------------------------------------
  // The producer
  // ---------------------------------------------------------------------------

  /** The index tail points to the entry of the block to come. */
  predicate TailAhead(p: Producer) { p.TakeBlock? || p.StoreValue? || p.Rewind? }

  predicate AtBoundary(p: Producer) {
    FindingEntry(p) || KeyingEntry(p) || p.TakeBlock? || p.StoreValue? || p.Rewind? || p.ClearEntry?
  }

  /** The next entry of the index is free: what it last held is out of the index. */
  ghost predicate NextIsFree(hd: Header, blockOf: seq<Block>, fates: seq<Fate>) {
    forall p: nat :: hd.start <= p < |fates| && p == |blockOf| - hd.size ==> Dead(fates[p])
  }

  ghost predicate StageInv(q: Queue) {
    var n, hd := |q.blockOf|, Current(q.headers);
    match q.producer
    case GrowIndex(_) => q.headers != [] && |q.entryOf| == n && hd.start + hd.size <= n
    case StoreKey(_) => q.headers != [] && NextIsFree(hd, q.blockOf, q.fates)
    case StoreIndexTail(_) => q.headers != [] && |q.entryOf| == n + 1
    case TakeBlock(_) => q.headers != [] && |q.entryOf| == n + 1
    case StoreValue(_, b) =>
      && q.headers != [] && |q.entryOf| == n + 1
      && BlockShape(q.counts, q.cells, b) && q.counts[b] == 0 && !InUse(q.blockOf, q.fates, b)
    case Rewind => q.headers != [] && |q.entryOf| == n + 1
    case ClearEntry => q.headers != [] && |q.entryOf| == n + 1
    case _ => |q.entryOf| == n + 1 ==> EntryAt(q.entries, q.entryOf[n]).value == NULL
  }

  ghost predicate ProducerInv(q: Queue) {
    var n, tail := |q.blockOf| * BLOCK_SIZE, q.claims.tail;
    && |q.items| == tail + (if q.producer.StoreTail? then 1 else 0)
    && (if AtBoundary(q.producer) then tail == n
        else if q.producer.Ready? then tail <= n < tail + BLOCK_SIZE
        else n - BLOCK_SIZE <= tail < n)
    && (q.producer.StoreTail? ==> q.items[tail] == q.producer.item)
    && (|q.blockOf| > 0 ==> q.tailBlock == q.blockOf[|q.blockOf| - 1])
    && (q.headers != [] ==> Current(q.headers).at == |q.blockOf| - if TailAhead(q.producer) then 0 else 1)
    && StageInv(q)
  }

  // ---------------------------------------------------------------------------
  // The readers
  // ---------------------------------------------------------------------------

  /** The header a reader holds still points to the entries of block numbers p to r. */
  ghost predicate Covers(headers: seq<Header>, h: nat, p: int, r: int) {
    h < |headers| && headers[h].lo <= p && r <= headers[h].top
  }

  ghost predicate AtSlot(headers: seq<Header>, h: nat, slot: int, p: nat) {
    h < |headers| && slot == SlotOf(headers[h].start, headers[h].size, p)
  }

  predicate InBlock(blockOf: seq<Block>, b: Block, first: nat, stop: nat, end: nat) {
    var p := first / BLOCK_SIZE;
    && p < |blockOf| && b == blockOf[p]
    && first < stop <= end && stop == (if end < (p + 1) * BLOCK_SIZE then end else (p + 1) * BLOCK_SIZE)
  }

  ghost predicate PlaceInv(headers: seq<Header>, blockOf: seq<Block>, r: Reader) {
    match r
    case Resting => true
    case LoadIndex(index, end) => index < end
    case LoadIndexTail(h, index, end) => index < end && Covers(headers, h, index / BLOCK_SIZE, (end - 1) / BLOCK_SIZE)
    case LoadKey(h, f, seen, index, end) =>
      && index < end && Covers(headers, h, index / BLOCK_SIZE, seen) && (end - 1) / BLOCK_SIZE <= seen
      && AtSlot(headers, h, f, seen)
    case LoadValue(h, slot, index, end) =>
      && index < end && Covers(headers, h, index / BLOCK_SIZE, (end - 1) / BLOCK_SIZE)
      && AtSlot(headers, h, slot, index / BLOCK_SIZE)
    case ReadItem(h, slot, b, first, index, stop, end) =>
      && Covers(headers, h, first / BLOCK_SIZE, (end - 1) / BLOCK_SIZE) && AtSlot(headers, h, slot, first / BLOCK_SIZE)
      && InBlock(blockOf, b, first, stop, end) && first <= index < stop
    case AddEmpty(h, slot, b, first, stop, end) =>
      && Covers(headers, h, first / BLOCK_SIZE, (end - 1) / BLOCK_SIZE) && AtSlot(headers, h, slot, first / BLOCK_SIZE)
      && InBlock(blockOf, b, first, stop, end)
    case NullEntry(h, slot, b, first, stop, end) =>
      && Covers(headers, h, first / BLOCK_SIZE, (end - 1) / BLOCK_SIZE) && AtSlot(headers, h, slot, first / BLOCK_SIZE)
      && InBlock(blockOf, b, first, stop, end)
    case ReturnBlock(h, slot, b, first, stop, end) =>
      && (stop < end ==> Covers(headers, h, stop / BLOCK_SIZE, (end - 1) / BLOCK_SIZE))
      && AtSlot(headers, h, slot, first / BLOCK_SIZE) && InBlock(blockOf, b, first, stop, end)
  }

  function Start(r: Reader): nat {
    match r
    case Resting => 0
    case LoadIndex(index, _) => index
    case LoadIndexTail(_, index, _) => index
    case LoadKey(_, _, _, index, _) => index
    case LoadValue(_, _, index, _) => index
    case ReadItem(_, _, _, first, _, _, _) => first
    case AddEmpty(_, _, _, first, _, _) => first
    case NullEntry(_, _, _, first, _, _) => first
    case ReturnBlock(_, _, _, first, _, _) => first
  }

  predicate FateOf(fates: seq<Fate>, r: Reader, t: Thread) {
    match r
    case NullEntry(_, _, _, first, _, _) => first / BLOCK_SIZE < |fates| && fates[first / BLOCK_SIZE] == Full(t)
    case ReturnBlock(_, _, _, first, _, _) => first / BLOCK_SIZE < |fates| && fates[first / BLOCK_SIZE] == Nulled(t)
    case _ => true
  }

  /** The indices a reader still has to do are claimed, and its own. */
  ghost predicate OwnsInv(r: Reader, t: Thread, head: nat, owner: seq<Thread>) {
    forall i: nat :: Unmarked(r, i) ==> i < head && i < |owner| && owner[i] == t
  }

  ghost predicate ReaderInv(headers: seq<Header>, blockOf: seq<Block>, fates: seq<Fate>, head: nat, owner: seq<Thread>,
                            r: Reader, t: Thread, pc: Claims.Pc) {
    && PlaceInv(headers, blockOf, r) && FateOf(fates, r, t)
    && (!r.Resting? ==> pc.Idle? && r.end <= head && r.end - Start(r) < HALF)
    && OwnsInv(r, t, head, owner)
  }

  ghost predicate ReadersInv(q: Queue) {
    forall t: Thread :: ReaderInv(q.headers, q.blockOf, q.fates, q.claims.head, q.owner, ReaderOf(q, t), t, Claims.PcOf(q.claims, t))
  }

  ghost predicate Inv(q: Queue) {
    && Claims.Inv(q.claims) && ProducerInv(q) && ReadersInv(q)
    && IndexInv(q.entries, q.headers, q.entryOf, q.blockOf, q.fates)
    && BlocksInv(q.counts, q.cells, q.blockOf, q.fates, Finished(q))
    && FatesInv(q.fates, Finished(q)) && FateOwners(q.fates, q.readers)
    && CellInv(q.cells, q.blockOf, q.items, Waiting(q))
    && DeliveryInv(q.claims.head, q.claims.tail, q.items, q.owner, q.delivered, Waiting(q))
  }

  lemma InvInitially(indexed: bool, garbage: Garbage)
    ensures Inv(Init(indexed, garbage))
  {
    var q := Init(indexed, garbage);
    assert Waiting(q) == {};
    assert ReadersInv(q);
    if indexed {
      var hd := Current(q.headers);
      PowerTimes16(1);
      assert hd.start == 0 && hd.size == INITIAL_INDEX_SIZE && |q.entries| == INITIAL_INDEX_SIZE;
      assert forall a :: 0 <= a < hd.size ==> hd.index[a] == a;
    }
  }
}
