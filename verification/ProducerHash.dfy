/** `get_or_add_implicit_producer`: a chain of open-addressing hash tables of growing size,
    from thread ids to producers, shared by all threads. A thread looks its id up in the
    current and all older tables, copies a find into the current one, or counts itself in
    and inserts. Every atomic access is one step; the allocators may refuse. */
module ProducerHash {
  import opened Arithmetic
  import opened Collections

  type Thread = nat
  type Producer = nat

  /** `entries` of one table. Auxiliary: `dist` records how far from its hash each key lies. */
  datatype Table = Table(keys: seq<Option<Thread>>, values: seq<Producer>, dist: seq<nat>)

  function Capacity(table: Table): nat { |table.keys| }

  function EmptyTable(capacity: nat): Table {
    Table(seq(capacity, _ => None), seq(capacity, _ => 0), seq(capacity, _ => 0))
  }

  /** The next atomic access of a thread. `main` is the table it takes for the current one,
      `k` counts the slots probed so far, `n` is the count it drew. */
  datatype Pc =
    | Idle
    | LoadMain
    | Lookup(main: nat, table: nat, k: nat)
    | Copy(main: nat, k: nat, value: Producer)
    | CopyCas(main: nat, k: nat, value: Producer)
    | CopyValue(main: nat, k: nat, value: Producer)
    | Count(main: nat)
    | TryLock(main: nat, n: nat)
    | LockedLoad(n: nat)
    | Allocate(main: nat, n: nat)
    | Publish(main: nat, n: nat)
    | Unlock(main: nat, n: nat)
    | Refuse(locked: bool, n: nat)
    | RefuseUnlock
    | Create(main: nat, n: nat)
    | Insert(main: nat, k: nat, value: Producer)
    | InsertCas(main: nat, k: nat, value: Producer)
    | InsertValue(main: nat, k: nat, value: Producer)
    | Reload(n: nat)

  /** Auxiliary, per thread: the count it drew and holds, the producer it was first given,
      and the table and distance at which it then put its key. */
  datatype Record = Record(count: Option<nat>, given: Option<Producer>, home: nat, dist: nat)

  /** `tables` is the chain of `prev` pointers, oldest first; the last is the current table.
      `hash` may send thread ids anywhere. Auxiliary: `records`, who had each producer made,
      and who holds the resize lock. */
  datatype State = State(
    tables: seq<Table>, count: nat, resizing: bool, pc: map<Thread, Pc>, hash: map<Thread, nat>,
    records: map<Thread, Record>, maker: map<Producer, Thread>, locker: Option<Thread>)

  /** `initialSize` is the trait `INITIAL_IMPLICIT_PRODUCER_HASH_SIZE`, any power of two. */
  function Init(hash: map<Thread, nat>, initialSize: nat): State {
    State([EmptyTable(initialSize)], 0, false, map[], hash, map[], map[], None)
  }

  /** A call, or the next access of a call; `producer` and `granted` are what the allocators
      answer when they are asked. */
  datatype Event = Call(t: Thread) | Step(t: Thread, producer: Option<Producer>, granted: bool)

  const BLANK: Record := Record(None, None, 0, 0)

  function PcOf(s: State, t: Thread): Pc { if t in s.pc then s.pc[t] else Idle }
  function Goto(s: State, t: Thread, p: Pc): State { s.(pc := s.pc[t := p]) }
  function HashOf(s: State, t: Thread): nat { if t in s.hash then s.hash[t] else 0 }
  function RecordOf(s: State, t: Thread): Record { if t in s.records then s.records[t] else BLANK }
  function TableAt(s: State, j: nat): Table { if j < |s.tables| then s.tables[j] else Table([], [], []) }

  /** `index &= capacity - 1` after k increments; the invariant keeps capacities powers of two. */
  function Slot(h: nat, k: nat, capacity: nat): (p: nat)
    ensures capacity > 0 ==> p < capacity
  {
    if capacity == 0 then 0 else (h + k) % capacity
  }

  function KeyAt(table: Table, p: nat): Option<Thread> { if p < |table.keys| then table.keys[p] else None }
  function ValueAt(table: Table, p: nat): Producer { if p < |table.values| then table.values[p] else 0 }

  /** The key a thread with hash h meets at distance k. */
  function Met(table: Table, h: nat, k: nat): Option<Thread> { KeyAt(table, Slot(h, k, Capacity(table))) }
  function MetValue(table: Table, h: nat, k: nat): Producer { ValueAt(table, Slot(h, k, Capacity(table))) }

  /** The capacity loop of the resize. */
  function NewCapacity(n: nat, capacity: nat): (c: nat)
    requires capacity > 0
    ensures c >= capacity && n < c / 2
    ensures c > capacity ==> n >= c / 4
    decreases if n < capacity / 2 then 0 else n + 1 - capacity / 2
  {
    if n < capacity / 2 then capacity else NewCapacity(n, 2 * capacity)
  }

  /** `(capacity >> 1) + (capacity >> 2)`. */
  function Threshold(table: Table): nat { Capacity(table) / 2 + Capacity(table) / 4 }

  function Settle(s: State, main: nat, n: nat): Pc {
    if n < Threshold(TableAt(s, main)) then Create(main, n) else Reload(n)
  }

  /** The top of the insertion loop. */
  function LoopHead(s: State, main: nat, n: nat): Pc {
    if n >= Capacity(TableAt(s, main)) / 2 then TryLock(main, n) else Settle(s, main, n)
  }

  function WithKey(table: Table, h: nat, t: Thread, k: nat): Table {
    var p := Slot(h, k, Capacity(table));
    if p < |table.keys| && p < |table.dist| then
      table.(keys := table.keys[p := Some(t)], dist := table.dist[p := k])
    else table
  }

  function WithValue(table: Table, h: nat, k: nat, value: Producer): Table {
    var p := Slot(h, k, Capacity(table));
    if p < |table.values| then table.(values := table.values[p := value]) else table
  }

  function SetTable(s: State, j: nat, table: Table): State {
    if j < |s.tables| then s.(tables := s.tables[j := table]) else s
  }

  function SetRecord(s: State, t: Thread, r: Record): State { s.(records := s.records[t := r]) }

  predicate Enabled(s: State, e: Event) {
    match e
    case Call(t) => PcOf(s, t).Idle?
    case Step(t, producer, _) =>
      && !PcOf(s, t).Idle?
      // a new producer is a new object: implicit producers are never recycled
      && (PcOf(s, t).Create? && producer.Some? ==> producer.value !in s.maker)
  }

  function Do(s: State, e: Event): State
    requires Enabled(s, e)
  {
    match e
    case Call(t) => Goto(s, t, LoadMain)
    case Step(t, producer, granted) => DoStep(s, t, producer, granted)
  }

  function DoStep(s: State, t: Thread, producer: Option<Producer>, granted: bool): State {
    Goto(Effect(s, t), t, Next(s, t, producer, granted)).(
      records := RecordsAfter(s, t), maker := MakerAfter(s, t, producer), locker := LockerAfter(s, t))
  }

  /** Where a thread's next access takes it. */
  function Next(s: State, t: Thread, producer: Option<Producer>, granted: bool): Pc {
    var h := HashOf(s, t);
    match PcOf(s, t)
    case Idle => Idle
    case LoadMain => if s.tables == [] then LoadMain else Lookup(|s.tables| - 1, |s.tables| - 1, 0)
    case Lookup(main, j, k) => AfterLookup(TableAt(s, j), h, t, main, j, k)
    case Copy(main, k, v) => if Met(TableAt(s, main), h, k).None? then CopyCas(main, k, v) else Copy(main, k + 1, v)
    case CopyCas(main, k, v) => if Met(TableAt(s, main), h, k).None? then CopyValue(main, k, v) else Copy(main, k + 1, v)
    case CopyValue(_, _, _) => Idle
    case Count(main) => LoopHead(s, main, s.count + 1)
    case TryLock(main, n) => if s.resizing then Settle(s, main, n) else LockedLoad(n)
    case LockedLoad(n) =>
      var main: nat := if s.tables == [] then 0 else |s.tables| - 1;
      if n >= Capacity(TableAt(s, main)) / 2 then Allocate(main, n) else Unlock(main, n)
    case Allocate(main, n) => if granted then Publish(main, n) else Refuse(true, n)
    case Publish(_, n) => Unlock(|s.tables|, n)
    case Unlock(main, n) => Settle(s, main, n)
    case Refuse(locked, _) => if locked then RefuseUnlock else Idle
    case RefuseUnlock => Idle
    case Create(main, n) => if producer.Some? then Insert(main, 0, producer.value) else Refuse(false, n)
    case Insert(main, k, v) => if Met(TableAt(s, main), h, k).None? then InsertCas(main, k, v) else Insert(main, k + 1, v)
    case InsertCas(main, k, v) => if Met(TableAt(s, main), h, k).None? then InsertValue(main, k, v) else Insert(main, k + 1, v)
    case InsertValue(_, _, _) => Idle
    case Reload(n) => if s.tables == [] then Reload(n) else LoopHead(s, |s.tables| - 1, n)
  }

  /** What a thread's next access does to the shared memory. */
  function Effect(s: State, t: Thread): State {
    var h := HashOf(s, t);
    match PcOf(s, t)
    case CopyCas(main, k, _) => PutKey(s, main, h, t, k)
    case InsertCas(main, k, _) => PutKey(s, main, h, t, k)
    case CopyValue(main, k, v) => SetTable(s, main, WithValue(TableAt(s, main), h, k, v))
    case InsertValue(main, k, v) => SetTable(s, main, WithValue(TableAt(s, main), h, k, v))
    case Count(_) => s.(count := s.count + 1)
    case Refuse(_, _) => s.(count := if s.count > 0 then s.count - 1 else 0)
    case TryLock(_, _) => s.(resizing := true)
    case Unlock(_, _) => s.(resizing := false)
    case RefuseUnlock => s.(resizing := false)
    case Publish(main, n) => s.(tables := s.tables + [Successor(TableAt(s, main), n)])
    case _ => s
  }

  // The auxiliary fields beside it.

  function RecordsAfter(s: State, t: Thread): map<Thread, Record> {
    var r := RecordOf(s, t);
    match PcOf(s, t)
    case Count(_) => s.records[t := r.(count := Some(s.count + 1))]
    case Refuse(_, _) => s.records[t := r.(count := None)]
    case InsertValue(main, k, v) => s.records[t := r.(given := Some(v), home := main, dist := k)]
    case _ => s.records
  }

  function MakerAfter(s: State, t: Thread, producer: Option<Producer>): map<Producer, Thread> {
    if PcOf(s, t).Create? && producer.Some? then s.maker[producer.value := t] else s.maker
  }

  function LockerAfter(s: State, t: Thread): Option<Thread> {
    match PcOf(s, t)
    case TryLock(_, _) => if s.resizing then s.locker else Some(t)
    case Unlock(_, _) => None
    case RefuseUnlock => None
    case _ => s.locker
  }

  /** The CAS of a key over an empty slot. */
  function PutKey(s: State, main: nat, h: nat, t: Thread, k: nat): State {
    if Met(TableAt(s, main), h, k).None? then SetTable(s, main, WithKey(TableAt(s, main), h, t, k)) else s
  }

  /** The table allocated when a thread with count n finds `table` half full. */
  function Successor(table: Table, n: nat): Table {
    EmptyTable(if Capacity(table) == 0 then 0 else NewCapacity(n, 2 * Capacity(table)))
  }

  function AfterLookup(table: Table, h: nat, t: Thread, main: nat, j: nat, k: nat): Pc {
    var probed := Met(table, h, k);
    if probed == Some(t) then
      (if j == main then Idle else Copy(main, 0, MetValue(table, h, k)))
    else if probed.None? then
      (if j == 0 then Count(main) else Lookup(main, j - 1, 0))
    else Lookup(main, j, k + 1)
  }

  /** The producer a thread's next step returns to its caller, if it returns one. */
  function Returns(s: State, t: Thread): Option<Producer> {
    match PcOf(s, t)
    case Lookup(main, j, k) =>
      if Met(TableAt(s, j), HashOf(s, t), k) == Some(t) && j == main then Some(MetValue(TableAt(s, j), HashOf(s, t), k))
      else None
    case CopyValue(_, _, v) => Some(v)
    case InsertValue(_, _, v) => Some(v)
    case _ => None
  }

  // ---------------------------------------------------------------------------
  // Invariant
  // ---------------------------------------------------------------------------

  /** The first k slots a thread probes in a table hold other threads' keys. */
  ghost predicate Probed(table: Table, t: Thread, h: nat, k: nat) {
    forall i: nat :: i < k ==> Met(table, h, i).Some? && Met(table, h, i) != Some(t)
  }

  ghost predicate Absent(table: Table, t: Thread) {
    forall p: nat :: KeyAt(table, p) != Some(t)
  }

  predicate Shape(table: Table) {
    IsPowerOfTwo(Capacity(table)) && |table.values| == |table.dist| == Capacity(table)
  }

  ghost predicate ChainInv(tables: seq<Table>) {
    && tables != []
    && (forall j :: 0 <= j < |tables| ==> Shape(tables[j]))
    && (forall i, j :: 0 <= i < j < |tables| ==> Capacity(tables[i]) < Capacity(tables[j]))
  }

  /** Between the CAS that puts a key at distance k of table `main` and the store of its value. */
  predicate Writing(p: Pc, j: nat) {
    (p.InsertValue? || p.CopyValue?) && p.main == j
  }

  /** The key of t in slot p of table j: t drew a small enough count, the key lies where t
      looks for it, and its value is what t was first given, or is about to be stored. */
  ghost predicate OwnKey(table: Table, j: nat, p: nat, t: Thread, h: nat, r: Record, pc: Pc) {
    && p < |table.dist| && p < |table.values|
    && table.dist[p] < Capacity(table) && p == Slot(h, table.dist[p], Capacity(table))
    && Probed(table, t, h, table.dist[p])
    && r.count.Some? && r.count.value < Threshold(table)
    && ((r.given.Some? && ValueAt(table, p) == r.given.value) || Writing(pc, j))
    && (r.given.None? ==> pc.InsertValue?)
  }

  ghost predicate KeyInv(s: State, j: nat, p: nat)
    requires j < |s.tables|
  {
    match KeyAt(s.tables[j], p)
    case None => true
    case Some(t) => OwnKey(s.tables[j], j, p, t, HashOf(s, t), RecordOf(s, t), PcOf(s, t))
  }

  ghost predicate KeysInv(s: State) {
    forall j: nat, p: nat :: j < |s.tables| ==> KeyInv(s, j, p)
  }

  predicate HoldsBelow(r: Record, c: nat) { r.count.Some? && r.count.value < c }

  ghost function Below(records: map<Thread, Record>, c: nat): set<Thread> {
    set t | t in records && HoldsBelow(records[t], c)
  }

  ghost function Holders(records: map<Thread, Record>): set<Thread> {
    set t | t in records && records[t].count.Some?
  }

  /** The counter counts the holders, and fewer than c of them hold counts below c. */
  ghost predicate CountInv(count: nat, records: map<Thread, Record>) {
    && count == |Holders(records)|
    && (forall c: nat :: c > 0 ==> |Below(records, c)| < c)
  }

  predicate InResize(p: Pc) {
    p.LockedLoad? || p.Allocate? || p.Publish? || p.Unlock? || (p.Refuse? && p.locked) || p.RefuseUnlock?
  }

  ghost predicate LockInv(s: State) {
    && s.resizing == s.locker.Some?
    && (forall t: Thread :: InResize(PcOf(s, t)) <==> s.locker == Some(t))
  }

  predicate Made(maker: map<Producer, Thread>, v: Producer, t: Thread) { v in maker && maker[v] == t }

  /** A thread that was given a producer has its key at home. */
  predicate HomeOk(tables: seq<Table>, maker: map<Producer, Thread>, h: nat, r: Record, t: Thread) {
    r.given.Some? ==>
      && r.count.Some? && Made(maker, r.given.value, t)
      && r.home < |tables| && Met(tables[r.home], h, r.dist) == Some(t)
  }

  /** A thread with a count and no producer yet. */
  predicate Pending(r: Record, n: nat) { r.given.None? && r.count == Some(n) }

  predicate Settled(r: Record) { r.count.Some? <==> r.given.Some? }

  /** About to put its key into its main table after k occupied slots. */
  ghost predicate Placing(tables: seq<Table>, h: nat, r: Record, t: Thread, main: nat, k: nat) {
    && main < |tables| && k < Capacity(tables[main])
    && Absent(tables[main], t) && Probed(tables[main], t, h, k)
    && r.count.Some? && r.count.value < Threshold(tables[main])
  }

  predicate Placed(tables: seq<Table>, h: nat, r: Record, t: Thread, main: nat, k: nat) {
    main < |tables| && r.count.Some? && Met(tables[main], h, k) == Some(t)
  }

  ghost predicate LookupOk(tables: seq<Table>, h: nat, r: Record, t: Thread, main: nat, j: nat, k: nat) {
    && Settled(r)
    && j <= main < |tables| && k < Capacity(tables[j]) && Probed(tables[j], t, h, k)
    && (j < main ==> Absent(tables[main], t))
    && (r.given.Some? ==> r.home <= j)
  }

  ghost predicate PcOk(tables: seq<Table>, maker: map<Producer, Thread>, h: nat, r: Record, t: Thread, p: Pc) {
    match p
    case Idle => Settled(r)
    case LoadMain => Settled(r)
    case Lookup(main, j, k) => LookupOk(tables, h, r, t, main, j, k)
    case Copy(main, k, v) => r.given == Some(v) && Placing(tables, h, r, t, main, k)
    case CopyCas(main, k, v) => r.given == Some(v) && Placing(tables, h, r, t, main, k)
    case CopyValue(main, k, v) => r.given == Some(v) && Placed(tables, h, r, t, main, k)
    case Count(main) => r.count.None? && r.given.None? && main < |tables|
    case TryLock(main, n) => Pending(r, n) && main < |tables|
    case LockedLoad(n) => Pending(r, n)
    case Allocate(main, n) => Pending(r, n) && main == |tables| - 1 && n >= Capacity(tables[main]) / 2
    case Publish(main, n) => Pending(r, n) && main == |tables| - 1 && n >= Capacity(tables[main]) / 2
    case Unlock(main, n) => Pending(r, n) && main < |tables| && n < Capacity(tables[main]) / 2
    case Refuse(_, n) => Pending(r, n)
    case RefuseUnlock => r.count.None? && r.given.None?
    case Create(main, n) => Pending(r, n) && main < |tables| && n < Threshold(tables[main])
    case Insert(main, k, v) => r.given.None? && Made(maker, v, t) && Placing(tables, h, r, t, main, k)
    case InsertCas(main, k, v) => r.given.None? && Made(maker, v, t) && Placing(tables, h, r, t, main, k)
    case InsertValue(main, k, v) => r.given.None? && Made(maker, v, t) && Placed(tables, h, r, t, main, k)
    case Reload(n) => Pending(r, n)
  }

  ghost predicate ThreadInv(s: State, t: Thread) {
    && PcOk(s.tables, s.maker, HashOf(s, t), RecordOf(s, t), t, PcOf(s, t))
    && HomeOk(s.tables, s.maker, HashOf(s, t), RecordOf(s, t), t)
  }

  ghost predicate Inv(s: State) {
    && ChainInv(s.tables) && CountInv(s.count, s.records) && LockInv(s) && KeysInv(s)
    && (forall t: Thread :: ThreadInv(s, t))
  }

  // ---------------------------------------------------------------------------
  // Room in every table
  // ---------------------------------------------------------------------------

  function Occupied(keys: seq<Option<Thread>>): nat {
    if keys == [] then 0 else Occupied(keys[1..]) + if keys[0].Some? then 1 else 0
  }

  /** Distinct keys of threads from a set are at most as many as the set. */
  lemma {:induction false} DistinctKeysFit(keys: seq<Option<Thread>>, owners: set<Thread>)
    requires forall p :: 0 <= p < |keys| && keys[p].Some? ==> keys[p].value in owners
    requires forall p, q :: 0 <= p < q < |keys| && keys[p].Some? ==> keys[p] != keys[q]
    ensures Occupied(keys) <= |owners|
  {
    if keys == [] {
    } else {
      var rest := keys[1..];
      if keys[0].Some? {
        var t := keys[0].value;
        forall p | 0 <= p < |rest| && rest[p].Some? ensures rest[p].value in owners - {t} {
          assert keys[p + 1] == rest[p];
        }
        DistinctKeysFit(rest, owners - {t});
        assert |owners - {t}| == |owners| - 1;
      } else {
        DistinctKeysFit(rest, owners);
      }
    }
  }

  lemma {:induction false} AllOccupied(keys: seq<Option<Thread>>)
    requires forall p :: 0 <= p < |keys| ==> keys[p].Some?
    ensures Occupied(keys) == |keys|
  {
    if keys == [] {
    } else {
      AllOccupied(keys[1..]);
    }
  }

  /** Probing reaches every slot. */
  lemma SlotReached(h: nat, p: nat, capacity: nat) returns (k: nat)
    requires p < capacity
    ensures k < capacity && Slot(h, k, capacity) == p
  {
    var r := h % capacity;
    var q := h / capacity;
    assert h == q * capacity + r;
    if p >= r {
      k := p - r;
      assert h + k == q * capacity + p;
      DivModUnique(h + k, capacity, q, p);
    } else {
      k := p + capacity - r;
      assert h + k == (q + 1) * capacity + p;
      DivModUnique(h + k, capacity, q + 1, p);
    }
  }

  /** A key lies where its thread looks, after keys of others. */
  lemma KeyLiesAt(s: State, j: nat, p: nat)
    requires j < |s.tables| && KeyInv(s, j, p)
    ensures
      KeyAt(s.tables[j], p).Some? ==>
        && var t := KeyAt(s.tables[j], p).value;
        && p < |s.tables[j].dist| && p == Slot(HashOf(s, t), s.tables[j].dist[p], Capacity(s.tables[j]))
        && Met(s.tables[j], HashOf(s, t), s.tables[j].dist[p]) == Some(t)
        && Probed(s.tables[j], t, HashOf(s, t), s.tables[j].dist[p])
  {
  }

  /** No thread has two keys in a table. */
  lemma KeysDistinct(s: State, j: nat, p: nat, q: nat)
    requires j < |s.tables| && KeyInv(s, j, p) && KeyInv(s, j, q) && p != q
    requires KeyAt(s.tables[j], p).Some?
    ensures KeyAt(s.tables[j], p) != KeyAt(s.tables[j], q)
  {
    KeyLiesAt(s, j, p);
    KeyLiesAt(s, j, q);
  }

  /** Every table always holds fewer keys than three quarters of its capacity, the bound of the
      insertion loop; a table of one slot, where that bound is 0, holds none. */
  lemma FewerKeysThanThreshold(s: State, j: nat)
    requires ChainInv(s.tables) && CountInv(s.count, s.records) && j < |s.tables| && KeysInv(s)
    ensures var table := s.tables[j];
            && Threshold(table) < Capacity(table) && 4 * Occupied(table.keys) < 3 * Capacity(table)
            && (if Capacity(table) > 1 then Occupied(table.keys) < Threshold(table) else Occupied(table.keys) == 0)
  {
    var table := s.tables[j];
    var owners := Below(s.records, Threshold(table));
    forall p | 0 <= p < |table.keys| && table.keys[p].Some? ensures table.keys[p].value in owners {
      assert KeyInv(s, j, p);
    }
    forall p, q | 0 <= p < q < |table.keys| && table.keys[p].Some? ensures table.keys[p] != table.keys[q] {
      assert KeyInv(s, j, p) && KeyInv(s, j, q);
      KeysDistinct(s, j, p, q);
    }
    DistinctKeysFit(table.keys, owners);
    assert Shape(table);
  }

  /** So a probe that has met k occupied slots has not been round the table. */
  lemma ProbeFindsRoom(s: State, j: nat, t: Thread, k: nat)
    requires ChainInv(s.tables) && CountInv(s.count, s.records) && j < |s.tables| && KeysInv(s)
    requires Probed(s.tables[j], t, HashOf(s, t), k) && k <= Capacity(s.tables[j])
    ensures k < Capacity(s.tables[j])
  {
    var table := s.tables[j];
    FewerKeysThanThreshold(s, j);
    if k == Capacity(table) {
      forall p | 0 <= p < |table.keys| ensures table.keys[p].Some? {
        var i := SlotReached(HashOf(s, t), p, Capacity(table));
        assert Met(table, HashOf(s, t), i).Some?;
      }
      AllOccupied(table.keys);
    }
  }

  /** An empty slot after k others' keys means the table has no key of this thread. */
  lemma EmptySlotMeansAbsent(s: State, j: nat, t: Thread, k: nat)
    requires j < |s.tables| && KeysInv(s)
    requires Probed(s.tables[j], t, HashOf(s, t), k) && Met(s.tables[j], HashOf(s, t), k).None?
    ensures Absent(s.tables[j], t)
  {
    var table := s.tables[j];
    forall p: nat ensures KeyAt(table, p) != Some(t) {
      KeyLiesAt(s, j, p);
    }
  }

  // ---------------------------------------------------------------------------
  // Preservation: steps that leave the tables alone
  // ---------------------------------------------------------------------------

  /** The records of s' differ from those of s at most in t's count and in nothing t's keys
      rely on; the makers only grow. */
  ghost predicate OnlyT(s: State, s': State, t: Thread) {
    && s'.hash == s.hash
    && (forall u: Thread :: u != t ==> PcOf(s', u) == PcOf(s, u) && RecordOf(s', u) == RecordOf(s, u))
    && (forall v :: v in s.maker ==> v in s'.maker && s'.maker[v] == s.maker[v])
  }

  lemma MoreMakers(tables: seq<Table>, maker: map<Producer, Thread>, maker': map<Producer, Thread>, h: nat, r: Record,
                   t: Thread, p: Pc)
    requires forall v :: v in maker ==> v in maker' && maker'[v] == maker[v]
    ensures PcOk(tables, maker, h, r, t, p) ==> PcOk(tables, maker', h, r, t, p)
    ensures HomeOk(tables, maker, h, r, t) ==> HomeOk(tables, maker', h, r, t)
  {
  }

  lemma LockFrame(s: State, s': State, t: Thread)
    requires LockInv(s) && s'.resizing == s.resizing && s'.locker == s.locker && OnlyT(s, s', t)
    requires InResize(PcOf(s', t)) == InResize(PcOf(s, t))
    ensures LockInv(s')
  {
    forall u: Thread ensures InResize(PcOf(s', u)) <==> s'.locker == Some(u) {
      assert InResize(PcOf(s, u)) <==> s.locker == Some(u);
    }
  }

  lemma TablesUntouched(s: State, s': State, t: Thread)
    requires KeysInv(s) && (forall u: Thread :: ThreadInv(s, u))
    requires OnlyT(s, s', t) && s'.tables == s.tables && ThreadInv(s', t)
    requires RecordOf(s', t) == RecordOf(s, t) || RecordOf(s, t).given.None?
    requires forall j: nat :: !Writing(PcOf(s, t), j)
    ensures KeysInv(s') && (forall u: Thread :: ThreadInv(s', u))
  {
    forall j: nat, p: nat | j < |s'.tables| ensures KeyInv(s', j, p) {
      assert KeyInv(s, j, p);
      if KeyAt(s.tables[j], p) == Some(t) { assert !Writing(PcOf(s, t), j); }
    }
    forall u: Thread ensures ThreadInv(s', u) {
      assert ThreadInv(s, u);
      if u != t { MoreMakers(s.tables, s.maker, s'.maker, HashOf(s, u), RecordOf(s, u), u, PcOf(s, u)); }
    }
  }

  /** A step that moves only the program counter of t. */
  lemma MoveStep(s: State, t: Thread, p: Pc)
    requires Inv(s) && (forall j: nat :: !Writing(PcOf(s, t), j)) && InResize(p) == InResize(PcOf(s, t))
    requires PcOk(s.tables, s.maker, HashOf(s, t), RecordOf(s, t), t, p)
    ensures Inv(Goto(s, t, p))
  {
    var s' := Goto(s, t, p);
    assert ThreadInv(s, t);
    TablesUntouched(s, s', t);
    LockFrame(s, s', t);
  }

  lemma LookupStep(s: State, t: Thread, main: nat, j: nat, k: nat)
    requires Inv(s) && PcOf(s, t) == Lookup(main, j, k)
    ensures Inv(Goto(s, t, AfterLookup(TableAt(s, j), HashOf(s, t), t, main, j, k)))
  {
    assert ThreadInv(s, t);
    var table, h, p := s.tables[j], HashOf(s, t), AfterLookup(TableAt(s, j), HashOf(s, t), t, main, j, k);
    assert Shape(table);
    if Met(table, h, k) == Some(t) {
      FoundInLookup(s, t, main, j, k);
    } else if Met(table, h, k).None? {
      EmptySlotMeansAbsent(s, j, t, k);
      if j > 0 { assert Shape(s.tables[j - 1]); }
    } else {
      ProbeFindsRoom(s, j, t, k + 1);
    }
    MoveStep(s, t, p);
  }

  /** What a lookup finds is what the thread was first given, and the thread fits into every
      later table. */
  lemma FoundInLookup(s: State, t: Thread, main: nat, j: nat, k: nat)
    requires Inv(s) && PcOf(s, t) == Lookup(main, j, k) && Met(TableAt(s, j), HashOf(s, t), k) == Some(t)
    ensures RecordOf(s, t).given == Some(MetValue(TableAt(s, j), HashOf(s, t), k))
    ensures RecordOf(s, t).count.Some? && RecordOf(s, t).count.value < Threshold(TableAt(s, main))
    ensures Capacity(TableAt(s, main)) > 0
  {
    assert ThreadInv(s, t);
    var table := s.tables[j];
    assert KeyInv(s, j, Slot(HashOf(s, t), k, Capacity(table)));
    assert Shape(table) && Shape(s.tables[main]);
    if j < main { assert Capacity(s.tables[j]) < Capacity(s.tables[main]); }
  }

  /** The next probe after an occupied slot. */
  lemma NextProbe(s: State, t: Thread, main: nat, k: nat)
    requires Inv(s) && Placing(s.tables, HashOf(s, t), RecordOf(s, t), t, main, k)
    requires Met(s.tables[main], HashOf(s, t), k).Some?
    ensures Placing(s.tables, HashOf(s, t), RecordOf(s, t), t, main, k + 1)
  {
    ProbeFindsRoom(s, main, t, k + 1);
  }

  // ---------------------------------------------------------------------------
  // Preservation: a key is put into an empty slot
  // ---------------------------------------------------------------------------

  lemma PutEffect(table: Table, h: nat, t: Thread, k: nat)
    requires Met(table, h, k).None?
    ensures Capacity(WithKey(table, h, t, k)) == Capacity(table)
    ensures forall p: nat :: KeyAt(WithKey(table, h, t, k), p) ==
              if p == Slot(h, k, Capacity(table)) && p < |table.keys| && p < |table.dist| then Some(t) else KeyAt(table, p)
  {
  }

  lemma PutKeepsMet(table: Table, h: nat, t: Thread, k: nat, g: nat, n: nat)
    requires Met(table, h, k).None? && Met(table, g, n).Some?
    ensures Met(WithKey(table, h, t, k), g, n) == Met(table, g, n)
  {
    PutEffect(table, h, t, k);
    assert KeyAt(WithKey(table, h, t, k), Slot(g, n, Capacity(table))) == KeyAt(table, Slot(g, n, Capacity(table)));
  }

  lemma PutKeepsOthers(table: Table, h: nat, t: Thread, k: nat, u: Thread, g: nat, n: nat)
    requires Met(table, h, k).None? && u != t
    ensures Probed(table, u, g, n) ==> Probed(WithKey(table, h, t, k), u, g, n)
    ensures Absent(table, u) ==> Absent(WithKey(table, h, t, k), u)
    ensures Met(table, g, n) == Some(u) ==> Met(WithKey(table, h, t, k), g, n) == Some(u)
  {
    PutEffect(table, h, t, k);
    var table' := WithKey(table, h, t, k);
    if Probed(table, u, g, n) {
      forall i: nat | i < n ensures Met(table', g, i).Some? && Met(table', g, i) != Some(u) {
        PutKeepsMet(table, h, t, k, g, i);
      }
    }
    if Absent(table, u) {
      forall p: nat ensures KeyAt(table', p) != Some(u) {
        assert KeyAt(table, p) != Some(u);
      }
    }
    if Met(table, g, n) == Some(u) { PutKeepsMet(table, h, t, k, g, n); }
  }

  lemma PutKeepsPc(tables: seq<Table>, maker: map<Producer, Thread>, main: nat, h: nat, t: Thread, k: nat,
                   u: Thread, g: nat, r: Record, p: Pc)
    requires main < |tables| && Met(tables[main], h, k).None? && u != t
    requires PcOk(tables, maker, g, r, u, p)
    ensures PcOk(tables[main := WithKey(tables[main], h, t, k)], maker, g, r, u, p)
  {
    match p
    case Lookup(m, j, n) =>
      PutKeepsOthers(tables[main], h, t, k, u, g, n);
    case Copy(m, n, _) => PutKeepsOthers(tables[main], h, t, k, u, g, n);
    case CopyCas(m, n, _) => PutKeepsOthers(tables[main], h, t, k, u, g, n);
    case Insert(m, n, _) => PutKeepsOthers(tables[main], h, t, k, u, g, n);
    case InsertCas(m, n, _) => PutKeepsOthers(tables[main], h, t, k, u, g, n);
    case CopyValue(m, n, _) => PutKeepsOthers(tables[main], h, t, k, u, g, n);
    case InsertValue(m, n, _) => PutKeepsOthers(tables[main], h, t, k, u, g, n);
    case _ =>
  }

  lemma PutKeepsHome(tables: seq<Table>, maker: map<Producer, Thread>, main: nat, h: nat, t: Thread, k: nat,
                     u: Thread, g: nat, r: Record)
    requires main < |tables| && Met(tables[main], h, k).None?
    requires HomeOk(tables, maker, g, r, u)
    ensures HomeOk(tables[main := WithKey(tables[main], h, t, k)], maker, g, r, u)
  {
  }

  lemma PutKeepsOwnKey(table: Table, j: nat, p: nat, h: nat, t: Thread, k: nat, u: Thread, g: nat, r: Record, pc: Pc)
    requires Met(table, h, k).None? && u != t && OwnKey(table, j, p, u, g, r, pc) && KeyAt(table, p) == Some(u)
    requires Shape(table)
    ensures OwnKey(WithKey(table, h, t, k), j, p, u, g, r, pc)
  {
    PutKeepsOthers(table, h, t, k, u, g, table.dist[p]);
  }

  /** The slot filled, and the key in it. */
  lemma PutOwnKey(table: Table, j: nat, h: nat, t: Thread, k: nat, r: Record, pc: Pc)
    requires Shape(table) && k < Capacity(table) && Met(table, h, k).None? && Absent(table, t) && Probed(table, t, h, k)
    requires r.count.Some? && r.count.value < Threshold(table) && Writing(pc, j) && (r.given.None? ==> pc.InsertValue?)
    ensures OwnKey(WithKey(table, h, t, k), j, Slot(h, k, Capacity(table)), t, h, r, pc)
    ensures Met(WithKey(table, h, t, k), h, k) == Some(t)
    ensures forall p: nat :: KeyAt(WithKey(table, h, t, k), p) == Some(t) ==> p == Slot(h, k, Capacity(table))
    ensures Shape(WithKey(table, h, t, k)) && Capacity(WithKey(table, h, t, k)) == Capacity(table)
  {
    PutEffect(table, h, t, k);
    var table' := WithKey(table, h, t, k);
    forall i: nat | i < k ensures Met(table', h, i).Some? && Met(table', h, i) != Some(t) {
      PutKeepsMet(table, h, t, k, h, i);
    }
    forall p: nat | KeyAt(table', p) == Some(t) ensures p == Slot(h, k, Capacity(table)) {
      assert KeyAt(table, p) != Some(t);
    }
  }

  lemma PutKeepsThreads(s: State, s': State, t: Thread, main: nat, k: nat, p: Pc)
    requires forall u: Thread :: ThreadInv(s, u)
    requires main < |s.tables| && Met(s.tables[main], HashOf(s, t), k).None?
    requires s' == Goto(SetTable(s, main, WithKey(s.tables[main], HashOf(s, t), t, k)), t, p)
    ensures forall u: Thread :: u != t ==> ThreadInv(s', u)
    ensures HomeOk(s'.tables, s'.maker, HashOf(s', t), RecordOf(s', t), t)
  {
    var h := HashOf(s, t);
    assert ThreadInv(s, t);
    PutKeepsHome(s.tables, s.maker, main, h, t, k, t, h, RecordOf(s, t));
    forall u: Thread | u != t ensures ThreadInv(s', u) {
      assert ThreadInv(s, u);
      PutKeepsHome(s.tables, s.maker, main, h, t, k, u, HashOf(s, u), RecordOf(s, u));
      PutKeepsPc(s.tables, s.maker, main, h, t, k, u, HashOf(s, u), RecordOf(s, u), PcOf(s, u));
    }
  }

  lemma PutStep(s: State, s': State, t: Thread, main: nat, k: nat, p: Pc)
    requires Inv(s) && Placing(s.tables, HashOf(s, t), RecordOf(s, t), t, main, k)
    requires Met(s.tables[main], HashOf(s, t), k).None?
    requires forall i: nat :: !Writing(PcOf(s, t), i)
    requires !InResize(PcOf(s, t)) && !InResize(p)
    requires Writing(p, main) && (RecordOf(s, t).given.None? ==> p.InsertValue?)
    requires Placed(s'.tables, HashOf(s, t), RecordOf(s, t), t, main, k) ==>
               PcOk(s'.tables, s.maker, HashOf(s, t), RecordOf(s, t), t, p)
    requires s' == Goto(SetTable(s, main, WithKey(s.tables[main], HashOf(s, t), t, k)), t, p)
    ensures Inv(s')
  {
    var h, table := HashOf(s, t), s.tables[main];
    assert Shape(table);
    PutOwnKey(table, main, h, t, k, RecordOf(s, t), p);
    forall j: nat, q: nat | j < |s'.tables| ensures KeyInv(s', j, q) {
      PutKeepsKey(s, s', t, main, k, p, j, q);
    }
    PutKeepsThreads(s, s', t, main, k, p);
    LockFrame(s, s', t);
  }

  lemma PutKeepsKey(s: State, s': State, t: Thread, main: nat, k: nat, p: Pc, j: nat, q: nat)
    requires Inv(s) && Placing(s.tables, HashOf(s, t), RecordOf(s, t), t, main, k)
    requires Met(s.tables[main], HashOf(s, t), k).None?
    requires forall i: nat :: !Writing(PcOf(s, t), i)
    requires s' == Goto(SetTable(s, main, WithKey(s.tables[main], HashOf(s, t), t, k)), t, p)
    requires Writing(p, main) && (RecordOf(s, t).given.None? ==> p.InsertValue?)
    requires j < |s.tables|
    ensures KeyInv(s', j, q)
  {
    var h, table := HashOf(s, t), s.tables[main];
    assert KeyInv(s, j, q) && Shape(table);
    PutOwnKey(table, main, h, t, k, RecordOf(s, t), p);
    if KeyAt(s.tables[j], q).Some? {
      var u := KeyAt(s.tables[j], q).value;
      if u == t {
        assert !Writing(PcOf(s, t), j);
      } else if j == main {
        PutKeepsOwnKey(table, j, q, h, t, k, u, HashOf(s, u), RecordOf(s, u), PcOf(s, u));
      }
    }
  }

  // ---------------------------------------------------------------------------
  // Preservation: a value is stored beside a key
  // ---------------------------------------------------------------------------

  /** Keys, distances and so all probes stay as they were. */
  lemma StoreKeeps(tables: seq<Table>, maker: map<Producer, Thread>, main: nat, h: nat, k: nat, v: Producer,
                   u: Thread, g: nat, r: Record, p: Pc)
    requires main < |tables|
    ensures PcOk(tables, maker, g, r, u, p) ==> PcOk(tables[main := WithValue(tables[main], h, k, v)], maker, g, r, u, p)
    ensures HomeOk(tables, maker, g, r, u) ==> HomeOk(tables[main := WithValue(tables[main], h, k, v)], maker, g, r, u)
  {
    var table, table' := tables[main], WithValue(tables[main], h, k, v);
    assert table'.keys == table.keys && table'.dist == table.dist;
    SameKeys(table, table', u, g);
  }

  lemma SameKeys(table: Table, table': Table, u: Thread, g: nat)
    requires table'.keys == table.keys
    ensures Absent(table, u) ==> Absent(table', u)
    ensures forall n: nat :: Met(table', g, n) == Met(table, g, n)
    ensures forall n: nat :: Probed(table, u, g, n) ==> Probed(table', u, g, n)
  {
    forall p: nat ensures KeyAt(table', p) == KeyAt(table, p) { }
    forall n: nat | Probed(table, u, g, n) ensures Probed(table', u, g, n) {
      forall i: nat | i < n ensures Met(table', g, i).Some? && Met(table', g, i) != Some(u) {
        assert Met(table, g, i).Some?;
      }
    }
  }

  lemma StoreStep(s: State, s': State, t: Thread, main: nat, k: nat, v: Producer, r: Record)
    requires Inv(s) && Placed(s.tables, HashOf(s, t), RecordOf(s, t), t, main, k)
    requires PcOf(s, t) == CopyValue(main, k, v) || PcOf(s, t) == InsertValue(main, k, v)
    requires PcOf(s, t).CopyValue? ==> r == RecordOf(s, t)
    requires PcOf(s, t).InsertValue? ==> r == RecordOf(s, t).(given := Some(v), home := main, dist := k)
    requires s'.tables == s.tables[main := WithValue(s.tables[main], HashOf(s, t), k, v)]
    requires s'.hash == s.hash && s'.maker == s.maker && s'.pc == s.pc[t := Idle]
    requires RecordOf(s', t) == r && (forall u: Thread :: u != t ==> RecordOf(s', u) == RecordOf(s, u))
    ensures KeysInv(s') && (forall u: Thread :: ThreadInv(s', u)) && ChainInv(s'.tables)
  {
    assert ThreadInv(s, t);
    var h := HashOf(s, t);
    assert Shape(s.tables[main]);
    SameKeys(s.tables[main], s'.tables[main], t, h);
    forall j: nat, q: nat | j < |s'.tables| ensures KeyInv(s', j, q) {
      StoreKeepsKey(s, s', t, main, k, v, r, j, q);
    }
    forall u: Thread ensures ThreadInv(s', u) {
      assert ThreadInv(s, u);
      StoreKeeps(s.tables, s.maker, main, h, k, v, u, HashOf(s, u), RecordOf(s, u), PcOf(s, u));
    }
  }

  lemma StoreKeepsKey(s: State, s': State, t: Thread, main: nat, k: nat, v: Producer, r: Record, j: nat, q: nat)
    requires KeysInv(s) && ChainInv(s.tables) && ThreadInv(s, t) && Placed(s.tables, HashOf(s, t), RecordOf(s, t), t, main, k)
    requires PcOf(s, t) == CopyValue(main, k, v) || PcOf(s, t) == InsertValue(main, k, v)
    requires PcOf(s, t).CopyValue? ==> r == RecordOf(s, t)
    requires PcOf(s, t).InsertValue? ==> r == RecordOf(s, t).(given := Some(v), home := main, dist := k)
    requires s'.tables == s.tables[main := WithValue(s.tables[main], HashOf(s, t), k, v)]
    requires s'.hash == s.hash && s'.maker == s.maker && s'.pc == s.pc[t := Idle]
    requires RecordOf(s', t) == r && (forall u: Thread :: u != t ==> RecordOf(s', u) == RecordOf(s, u))
    requires j < |s.tables|
    ensures KeyInv(s', j, q)
  {
    assert KeyInv(s, j, q) && Shape(s.tables[j]);
    var table, h := s.tables[main], HashOf(s, t);
    var p := Slot(h, k, Capacity(table));
    assert KeyInv(s, main, p);
    if KeyAt(s.tables[j], q).Some? {
      var u := KeyAt(s.tables[j], q).value;
      if j == main { SameKeys(table, s'.tables[main], u, HashOf(s, u)); }
      if u == t && j == main && q != p { KeysDistinct(s, main, q, p); }
    }
  }

  // ---------------------------------------------------------------------------
  // Preservation: the counter
  // ---------------------------------------------------------------------------

  /** The count drawn is above every count below which there is no room. */
  lemma CountDrawn(count: nat, records: map<Thread, Record>, t: Thread, r: Record)
    requires CountInv(count, records) && (t in records ==> records[t].count.None?) && r.count == Some(count + 1)
    ensures CountInv(count + 1, records[t := r])
  {
    var records' := records[t := r];
    assert Holders(records') == Holders(records) + {t};
    forall c: nat | c > 0 ensures |Below(records', c)| < c {
      if c <= count + 1 {
        assert Below(records', c) == Below(records, c);
      } else {
        assert Below(records', c) <= Holders(records');
        SubsetSize(Below(records', c), Holders(records'));
      }
    }
  }

  lemma CountDropped(count: nat, records: map<Thread, Record>, t: Thread, r: Record)
    requires CountInv(count, records) && t in records && records[t].count.Some? && r.count.None?
    ensures count > 0 && CountInv(count - 1, records[t := r])
  {
    var records' := records[t := r];
    assert Holders(records') == Holders(records) - {t};
    forall c: nat | c > 0 ensures |Below(records', c)| < c {
      assert Below(records', c) <= Below(records, c);
      SubsetSize(Below(records', c), Below(records, c));
    }
  }

  lemma CountKept(count: nat, records: map<Thread, Record>, t: Thread, r: Record)
    requires CountInv(count, records) && t in records && records[t].count == r.count
    ensures CountInv(count, records[t := r])
  {
    var records' := records[t := r];
    assert Holders(records') == Holders(records);
    forall c: nat | c > 0 ensures |Below(records', c)| < c {
      assert Below(records', c) == Below(records, c);
    }
  }

  /** Where the insertion loop goes with the table it has. */
  lemma LoopHeadOk(s: State, h: nat, r: Record, t: Thread, main: nat, n: nat)
    requires Pending(r, n) && main < |s.tables|
    ensures PcOk(s.tables, s.maker, h, r, t, LoopHead(s, main, n)) && !InResize(LoopHead(s, main, n))
    ensures PcOk(s.tables, s.maker, h, r, t, Settle(s, main, n)) && !InResize(Settle(s, main, n))
  {
  }

  lemma CountStep(s: State, s': State, t: Thread, main: nat, n: nat, r: Record)
    requires Inv(s) && PcOf(s, t) == Count(main) && n == s.count + 1 && r == RecordOf(s, t).(count := Some(n))
    requires s' == Goto(SetRecord(s, t, r).(count := n), t, LoopHead(s, main, n))
    ensures Inv(s')
  {
    assert ThreadInv(s, t);
    CountDrawn(s.count, s.records, t, r);
    LoopHeadOk(s, HashOf(s, t), r, t, main, n);
    TablesUntouched(s, s', t);
    LockFrame(s, s', t);
  }

  lemma RefuseStep(s: State, s': State, t: Thread, locked: bool, n: nat, r: Record)
    requires Inv(s) && PcOf(s, t) == Refuse(locked, n) && r == RecordOf(s, t).(count := None)
    requires s' == Goto(SetRecord(s, t, r).(count := if s.count > 0 then s.count - 1 else 0), t,
                        if locked then RefuseUnlock else Idle)
    ensures Inv(s')
  {
    assert ThreadInv(s, t);
    CountDropped(s.count, s.records, t, r);
    TablesUntouched(s, s', t);
    LockFrame(s, s', t);
  }

  // ---------------------------------------------------------------------------
  // Preservation: the resize
  // ---------------------------------------------------------------------------

  lemma LockStep(s: State, s': State, t: Thread, p: Pc)
    requires Inv(s) && !s.resizing && s' == Goto(s, t, p).(resizing := true, locker := Some(t)) && InResize(p)
    requires forall i: nat :: !Writing(PcOf(s, t), i)
    requires PcOk(s.tables, s.maker, HashOf(s, t), RecordOf(s, t), t, p)
    ensures Inv(s')
  {
    assert ThreadInv(s, t);
    TablesUntouched(s, s', t);
    forall u: Thread ensures InResize(PcOf(s', u)) <==> s'.locker == Some(u) {
      assert InResize(PcOf(s, u)) <==> s.locker == Some(u);
    }
  }

  lemma UnlockStep(s: State, s': State, t: Thread, p: Pc)
    requires Inv(s) && InResize(PcOf(s, t)) && s' == Goto(s, t, p).(resizing := false, locker := None) && !InResize(p)
    requires PcOk(s.tables, s.maker, HashOf(s, t), RecordOf(s, t), t, p)
    ensures Inv(s')
  {
    assert ThreadInv(s, t);
    TablesUntouched(s, s', t);
    forall u: Thread ensures !InResize(PcOf(s', u)) {
      assert InResize(PcOf(s, u)) <==> s.locker == Some(u);
    }
  }

  /** Nobody but the holder of the lock relies on which table is the last. */
  lemma MoreTables(tables: seq<Table>, more: seq<Table>, maker: map<Producer, Thread>, h: nat, r: Record, u: Thread, p: Pc)
    requires PcOk(tables, maker, h, r, u, p) && HomeOk(tables, maker, h, r, u) && !p.Allocate? && !p.Publish?
    ensures PcOk(tables + more, maker, h, r, u, p) && HomeOk(tables + more, maker, h, r, u)
  {
  }

  lemma {:induction false} NewCapacityStaysPower(n: nat, capacity: nat)
    requires IsPowerOfTwo(capacity)
    ensures IsPowerOfTwo(NewCapacity(n, capacity))
    decreases if n < capacity / 2 then 0 else n + 1 - capacity / 2
  {
    if n < capacity / 2 {
    } else {
      PowerTimes2(capacity);
      NewCapacityStaysPower(n, 2 * capacity);
    }
  }

  lemma SuccessorShape(table: Table, n: nat)
    requires Shape(table)
    ensures Shape(Successor(table, n)) && Capacity(Successor(table, n)) > Capacity(table) && n < Capacity(Successor(table, n)) / 2
    ensures forall p: nat :: KeyAt(Successor(table, n), p).None?
  {
    PowerTimes2(Capacity(table));
    NewCapacityStaysPower(n, 2 * Capacity(table));
  }

  lemma ChainGrows(tables: seq<Table>, table: Table)
    requires ChainInv(tables) && Shape(table) && Capacity(table) > Capacity(tables[|tables| - 1])
    ensures ChainInv(tables + [table])
  {
    forall i, j | 0 <= i < j < |tables| + 1 ensures Capacity((tables + [table])[i]) < Capacity((tables + [table])[j]) {
      if j == |tables| && i < |tables| - 1 { assert Capacity(tables[i]) < Capacity(tables[|tables| - 1]); }
    }
  }

  lemma PublishKeepsKeys(s: State, s': State, t: Thread, table: Table, p: Pc)
    requires KeysInv(s) && (forall q: nat :: KeyAt(table, q).None?) && PcOf(s, t).Publish?
    requires s' == Goto(s.(tables := s.tables + [table]), t, p)
    ensures KeysInv(s')
  {
    forall j: nat, q: nat | j < |s'.tables| ensures KeyInv(s', j, q) {
      if j < |s.tables| { assert KeyInv(s, j, q); }
    }
  }

  lemma PublishStep(s: State, s': State, t: Thread, main: nat, n: nat, table: Table)
    requires Inv(s) && PcOf(s, t) == Publish(main, n) && main == |s.tables| - 1
    requires Shape(table) && Capacity(table) > Capacity(s.tables[main]) && (forall p: nat :: KeyAt(table, p).None?)
    requires n < Capacity(table) / 2
    requires s' == Goto(s.(tables := s.tables + [table]), t, Unlock(|s.tables|, n))
    ensures Inv(s')
  {
    assert ThreadInv(s, t) && (InResize(PcOf(s, t)) <==> s.locker == Some(t));
    ChainGrows(s.tables, table);
    PublishKeepsKeys(s, s', t, table, Unlock(|s.tables|, n));
    forall u: Thread ensures ThreadInv(s', u) {
      if u != t { PublishKeepsThread(s, s', t, u, table); }
    }
    LockFrame(s, s', t);
  }

  lemma PublishKeepsThread(s: State, s': State, t: Thread, u: Thread, table: Table)
    requires ThreadInv(s, u) && LockInv(s) && PcOf(s, t).Publish? && u != t
    requires s' == Goto(s.(tables := s.tables + [table]), t, PcOf(s', t))
    ensures ThreadInv(s', u)
  {
    assert InResize(PcOf(s, u)) <==> s.locker == Some(u);
    assert InResize(PcOf(s, t)) <==> s.locker == Some(t);
    MoreTables(s.tables, [table], s.maker, HashOf(s, u), RecordOf(s, u), u, PcOf(s, u));
  }

  // ---------------------------------------------------------------------------
  // Preservation: every step
  // ---------------------------------------------------------------------------

  /** A thread without a producer has no key in any table until its insertion. */
  lemma NoKeyYet(s: State, t: Thread, j: nat)
    requires KeysInv(s) && j < |s.tables| && RecordOf(s, t).given.None? && !PcOf(s, t).InsertValue?
    ensures Absent(s.tables[j], t)
  {
    forall p: nat ensures KeyAt(s.tables[j], p) != Some(t) {
      assert KeyInv(s, j, p);
    }
  }

  lemma CreateStep(s: State, s': State, t: Thread, main: nat, n: nat, v: Producer)
    requires Inv(s) && PcOf(s, t) == Create(main, n) && v !in s.maker
    requires s' == Goto(s.(maker := s.maker[v := t]), t, Insert(main, 0, v))
    ensures Inv(s')
  {
    assert ThreadInv(s, t) && Shape(s.tables[main]);
    NoKeyYet(s, t, main);
    TablesUntouched(s, s', t);
    LockFrame(s, s', t);
  }

  lemma CopyValueStep(s: State, s': State, t: Thread, main: nat, k: nat, v: Producer)
    requires Inv(s) && PcOf(s, t) == CopyValue(main, k, v)
    requires s' == Goto(SetTable(s, main, WithValue(TableAt(s, main), HashOf(s, t), k, v)), t, Idle)
    ensures Inv(s')
  {
    assert ThreadInv(s, t);
    StoreStep(s, s', t, main, k, v, RecordOf(s, t));
    LockFrame(s, s', t);
  }

  lemma InsertValueStep(s: State, s': State, t: Thread, main: nat, k: nat, v: Producer)
    requires Inv(s) && PcOf(s, t) == InsertValue(main, k, v)
    requires s' == Goto(SetRecord(SetTable(s, main, WithValue(TableAt(s, main), HashOf(s, t), k, v)), t,
                                  RecordOf(s, t).(given := Some(v), home := main, dist := k)), t, Idle)
    ensures Inv(s')
  {
    assert ThreadInv(s, t);
    var r := RecordOf(s, t).(given := Some(v), home := main, dist := k);
    StoreStep(s, s', t, main, k, v, r);
    CountKept(s.count, s.records, t, r);
    LockFrame(s, s', t);
  }

  lemma LoadOrLookupStep(s: State, t: Thread, producer: Option<Producer>, granted: bool)
    requires Inv(s) && (PcOf(s, t).LoadMain? || PcOf(s, t).Lookup?)
    ensures Inv(DoStep(s, t, producer, granted))
  {
    assert ThreadInv(s, t);
    match PcOf(s, t)
    case LoadMain =>
      assert Shape(s.tables[|s.tables| - 1]);
      MoveStep(s, t, Lookup(|s.tables| - 1, |s.tables| - 1, 0));
    case Lookup(main, j, k) => LookupStep(s, t, main, j, k);
  }

  lemma CopyStep(s: State, t: Thread, main: nat, k: nat, v: Producer)
    requires Inv(s) && PcOf(s, t) == Copy(main, k, v)
    ensures Inv(Goto(s, t, if Met(TableAt(s, main), HashOf(s, t), k).None? then CopyCas(main, k, v) else Copy(main, k + 1, v)))
  {
    assert ThreadInv(s, t);
    if Met(s.tables[main], HashOf(s, t), k).Some? {
      NextProbe(s, t, main, k);
      MoveStep(s, t, Copy(main, k + 1, v));
    } else {
      MoveStep(s, t, CopyCas(main, k, v));
    }
  }

  lemma CopyCasStep(s: State, s': State, t: Thread, main: nat, k: nat, v: Producer)
    requires Inv(s) && PcOf(s, t) == CopyCas(main, k, v)
    requires s' == Goto(PutKey(s, main, HashOf(s, t), t, k), t,
                        if Met(TableAt(s, main), HashOf(s, t), k).None? then CopyValue(main, k, v) else Copy(main, k + 1, v))
    ensures Inv(s')
  {
    assert ThreadInv(s, t);
    if Met(s.tables[main], HashOf(s, t), k).Some? {
      NextProbe(s, t, main, k);
      MoveStep(s, t, Copy(main, k + 1, v));
    } else {
      PutStep(s, s', t, main, k, CopyValue(main, k, v));
    }
  }

  lemma InsertStep(s: State, t: Thread, main: nat, k: nat, v: Producer)
    requires Inv(s) && PcOf(s, t) == Insert(main, k, v)
    ensures Inv(Goto(s, t, if Met(TableAt(s, main), HashOf(s, t), k).None? then InsertCas(main, k, v) else Insert(main, k + 1, v)))
  {
    assert ThreadInv(s, t);
    if Met(s.tables[main], HashOf(s, t), k).Some? {
      NextProbe(s, t, main, k);
      MoveStep(s, t, Insert(main, k + 1, v));
    } else {
      MoveStep(s, t, InsertCas(main, k, v));
    }
  }

  lemma InsertCasStep(s: State, s': State, t: Thread, main: nat, k: nat, v: Producer)
    requires Inv(s) && PcOf(s, t) == InsertCas(main, k, v)
    requires s' == Goto(PutKey(s, main, HashOf(s, t), t, k), t,
                        if Met(TableAt(s, main), HashOf(s, t), k).None? then InsertValue(main, k, v) else Insert(main, k + 1, v))
    ensures Inv(s')
  {
    assert ThreadInv(s, t);
    if Met(s.tables[main], HashOf(s, t), k).Some? {
      NextProbe(s, t, main, k);
      MoveStep(s, t, Insert(main, k + 1, v));
    } else {
      PutStep(s, s', t, main, k, InsertValue(main, k, v));
    }
  }

  lemma CopyingStep(s: State, t: Thread, producer: Option<Producer>, granted: bool)
    requires Inv(s) && (PcOf(s, t).Copy? || PcOf(s, t).CopyCas?)
    ensures Inv(DoStep(s, t, producer, granted))
  {
    match PcOf(s, t)
    case Copy(main, k, v) => CopyStep(s, t, main, k, v);
    case CopyCas(main, k, v) => CopyCasStep(s, DoStep(s, t, producer, granted), t, main, k, v);
  }

  lemma InsertingStep(s: State, t: Thread, producer: Option<Producer>, granted: bool)
    requires Inv(s) && (PcOf(s, t).Insert? || PcOf(s, t).InsertCas?)
    ensures Inv(DoStep(s, t, producer, granted))
  {
    hide Inv;
    match PcOf(s, t)
    case Insert(main, k, v) => InsertStep(s, t, main, k, v);
    case InsertCas(main, k, v) => InsertCasStep(s, DoStep(s, t, producer, granted), t, main, k, v);
  }

  lemma CreatingStep(s: State, t: Thread, main: nat, n: nat, producer: Option<Producer>, granted: bool)
    requires Inv(s) && Enabled(s, Step(t, producer, granted)) && PcOf(s, t) == Create(main, n)
    ensures Inv(DoStep(s, t, producer, granted))
  {
    assert ThreadInv(s, t);
    if producer.Some? { CreateStep(s, DoStep(s, t, producer, granted), t, main, n, producer.value); } else { MoveStep(s, t, Refuse(false, n)); }
  }

  lemma StoringStep(s: State, t: Thread, producer: Option<Producer>, granted: bool)
    requires Inv(s) && Enabled(s, Step(t, producer, granted))
    requires PcOf(s, t).Create? || PcOf(s, t).CopyValue? || PcOf(s, t).InsertValue?
    ensures Inv(DoStep(s, t, producer, granted))
  {
    hide Inv;
    var s' := DoStep(s, t, producer, granted);
    match PcOf(s, t)
    case Create(main, n) => CreatingStep(s, t, main, n, producer, granted);
    case CopyValue(main, k, v) => CopyValueStep(s, s', t, main, k, v);
    case InsertValue(main, k, v) => InsertValueStep(s, s', t, main, k, v);
  }

  lemma CountingStep(s: State, t: Thread, producer: Option<Producer>, granted: bool)
    requires Inv(s) && (PcOf(s, t).Count? || PcOf(s, t).Refuse? || PcOf(s, t).Reload?)
    ensures Inv(DoStep(s, t, producer, granted))
  {
    var s' := DoStep(s, t, producer, granted);
    match PcOf(s, t)
    case Count(main) => CountStep(s, s', t, main, s.count + 1, RecordOf(s, t).(count := Some(s.count + 1)));
    case Refuse(locked, n) => RefuseStep(s, s', t, locked, n, RecordOf(s, t).(count := None));
    case Reload(n) =>
      assert ThreadInv(s, t);
      LoopHeadOk(s, HashOf(s, t), RecordOf(s, t), t, |s.tables| - 1, n);
      MoveStep(s, t, LoopHead(s, |s.tables| - 1, n));
  }

  lemma LockingStep(s: State, t: Thread, producer: Option<Producer>, granted: bool)
    requires Inv(s) && (PcOf(s, t).TryLock? || PcOf(s, t).Unlock? || PcOf(s, t).RefuseUnlock?)
    ensures Inv(DoStep(s, t, producer, granted))
  {
    assert ThreadInv(s, t);
    var s' := DoStep(s, t, producer, granted);
    match PcOf(s, t)
    case TryLock(main, n) =>
      LoopHeadOk(s, HashOf(s, t), RecordOf(s, t), t, main, n);
      if s.resizing { MoveStep(s, t, Settle(s, main, n)); } else { LockStep(s, s', t, LockedLoad(n)); }
    case Unlock(main, n) =>
      LoopHeadOk(s, HashOf(s, t), RecordOf(s, t), t, main, n);
      UnlockStep(s, s', t, Settle(s, main, n));
    case RefuseUnlock => UnlockStep(s, s', t, Idle);
  }

  lemma ResizingStep(s: State, t: Thread, producer: Option<Producer>, granted: bool)
    requires Inv(s) && (PcOf(s, t).LockedLoad? || PcOf(s, t).Allocate? || PcOf(s, t).Publish?)
    ensures Inv(DoStep(s, t, producer, granted))
  {
    assert ThreadInv(s, t);
    var s' := DoStep(s, t, producer, granted);
    match PcOf(s, t)
    case LockedLoad(n) => MoveStep(s, t, PcOf(s', t));
    case Allocate(main, n) => MoveStep(s, t, if granted then Publish(main, n) else Refuse(true, n));
    case Publish(main, n) =>
      SuccessorShape(s.tables[main], n);
      PublishStep(s, s', t, main, n, Successor(s.tables[main], n));
  }

  lemma InvKept(s: State, e: Event)
    requires Inv(s) && Enabled(s, e)
    ensures Inv(Do(s, e))
  {
    match e
    case Call(t) =>
      assert ThreadInv(s, t);
      MoveStep(s, t, LoadMain);
    case Step(t, producer, granted) =>
      var p := PcOf(s, t);
      if p.LoadMain? || p.Lookup? {
        LoadOrLookupStep(s, t, producer, granted);
      } else if p.Copy? || p.CopyCas? {
        CopyingStep(s, t, producer, granted);
      } else if p.Insert? || p.InsertCas? {
        InsertingStep(s, t, producer, granted);
      } else if p.Create? || p.CopyValue? || p.InsertValue? {
        StoringStep(s, t, producer, granted);
      } else if p.Count? || p.Refuse? || p.Reload? {
        CountingStep(s, t, producer, granted);
      } else if p.TryLock? || p.Unlock? || p.RefuseUnlock? {
        LockingStep(s, t, producer, granted);
      } else {
        ResizingStep(s, t, producer, granted);
      }
  }

  lemma InvAtStart(hash: map<Thread, nat>, initialSize: nat)
    requires IsPowerOfTwo(initialSize)
    ensures Inv(Init(hash, initialSize))
  {
    var s := Init(hash, initialSize);
    assert Holders(s.records) == {};
    assert forall c: nat :: Below(s.records, c) == {};
  }

  // ---------------------------------------------------------------------------
  // Theorems over every run
  // ---------------------------------------------------------------------------

  /** Runs start from one empty table of any power-of-two size. */
  ghost predicate IsRun(states: seq<State>, events: seq<Event>) {
    && |states| == |events| + 1
    && (var size := Capacity(TableAt(states[0], 0)); IsPowerOfTwo(size) && states[0] == Init(states[0].hash, size))
    && forall i :: 0 <= i < |events| ==> Enabled(states[i], events[i]) && states[i + 1] == Do(states[i], events[i])
  }

  lemma {:induction false} EveryReachableStateIsSound(states: seq<State>, events: seq<Event>, i: nat)
    requires IsRun(states, events) && i < |states|
    ensures Inv(states[i])
  {
    if i == 0 {
      InvAtStart(states[0].hash, Capacity(TableAt(states[0], 0)));
    } else {
      EveryReachableStateIsSound(states, events, i - 1);
      InvKept(states[i - 1], events[i - 1]);
    }
  }

  /** In every reachable state every table has an empty slot, indeed more than a quarter of
      its slots are empty; so a probe from any hash comes to an empty slot or to the thread's
      own key within the capacity. */
  lemma EveryProbeEnds(states: seq<State>, events: seq<Event>, i: nat, j: nat, t: Thread)
    returns (k: nat)
    requires IsRun(states, events) && i < |states| && j < |states[i].tables|
    ensures 4 * Occupied(states[i].tables[j].keys) < 3 * Capacity(states[i].tables[j])
    ensures k < Capacity(states[i].tables[j])
    ensures var met := Met(states[i].tables[j], HashOf(states[i], t), k); met.None? || met == Some(t)
  {
    EveryReachableStateIsSound(states, events, i);
    var s := states[i];
    FewerKeysThanThreshold(s, j);
    if Probed(s.tables[j], t, HashOf(s, t), Capacity(s.tables[j])) {
      ProbeFindsRoom(s, j, t, Capacity(s.tables[j]));
    }
    k :| k < Capacity(s.tables[j]) && (Met(s.tables[j], HashOf(s, t), k).None? || Met(s.tables[j], HashOf(s, t), k) == Some(t));
  }

  /** And no running probe ever leaves the first capacity slots, whatever other threads
      insert meanwhile: each probe loop makes at most capacity rounds. */
  lemma ProbesStayShort(states: seq<State>, events: seq<Event>, i: nat, t: Thread)
    requires IsRun(states, events) && i < |states|
    ensures match PcOf(states[i], t)
            case Lookup(_, j, k) => j < |states[i].tables| && k < Capacity(states[i].tables[j])
            case Copy(m, k, _) => m < |states[i].tables| && k < Capacity(states[i].tables[m])
            case CopyCas(m, k, _) => m < |states[i].tables| && k < Capacity(states[i].tables[m])
            case Insert(m, k, _) => m < |states[i].tables| && k < Capacity(states[i].tables[m])
            case InsertCas(m, k, _) => m < |states[i].tables| && k < Capacity(states[i].tables[m])
            case _ => true
  {
    EveryReachableStateIsSound(states, events, i);
    assert ThreadInv(states[i], t);
  }

  /** What a call returns is from then on recorded as the thread's producer, and it is one
      the thread had made. */
  lemma ReturnIsGiven(s: State, e: Event)
    requires Inv(s) && Enabled(s, e) && e.Step? && Returns(s, e.t).Some?
    ensures RecordOf(Do(s, e), e.t).given == Returns(s, e.t)
    ensures Made(Do(s, e).maker, Returns(s, e.t).value, e.t)
    ensures RecordOf(s, e.t).given.Some? ==> RecordOf(s, e.t).given == Returns(s, e.t)
  {
    assert ThreadInv(s, e.t);
    if PcOf(s, e.t).Lookup? {
      FoundInLookup(s, e.t, PcOf(s, e.t).main, PcOf(s, e.t).table, PcOf(s, e.t).k);
    }
  }

  lemma GivenStays(s: State, e: Event, t: Thread, v: Producer)
    requires Inv(s) && Enabled(s, e)
    ensures RecordOf(s, t).given.Some? ==> RecordOf(Do(s, e), t).given == RecordOf(s, t).given
    ensures v in s.maker ==> v in Do(s, e).maker && Do(s, e).maker[v] == s.maker[v]
  {
    assert ThreadInv(s, t);
  }

  lemma {:induction false} GivenStaysInRun(states: seq<State>, events: seq<Event>, i: nat, j: nat, t: Thread, v: Producer)
    requires IsRun(states, events) && i <= j < |states|
    ensures RecordOf(states[i], t).given.Some? ==> RecordOf(states[j], t).given == RecordOf(states[i], t).given
    ensures v in states[i].maker ==> v in states[j].maker && states[j].maker[v] == states[i].maker[v]
  {
    hide Inv, Do, Enabled;
    if i == j {
    } else {
      GivenStaysInRun(states, events, i, j - 1, t, v);
      EveryReachableStateIsSound(states, events, j - 1);
      assert Enabled(states[j - 1], events[j - 1]);
      GivenStays(states[j - 1], events[j - 1], t, v);
    }
  }

  /** A thread always gets back the producer it first got, and two threads never get the same
      one. */
  lemma OneProducerPerThread(states: seq<State>, events: seq<Event>, i: nat, j: nat)
    requires IsRun(states, events) && i < j < |events| && events[i].Step? && events[j].Step?
    requires Returns(states[i], events[i].t).Some? && Returns(states[j], events[j].t).Some?
    ensures Returns(states[i], events[i].t) == Returns(states[j], events[j].t) <==> events[i].t == events[j].t
  {
    EveryReachableStateIsSound(states, events, i);
    EveryReachableStateIsSound(states, events, j);
    ReturnIsGiven(states[i], events[i]);
    ReturnIsGiven(states[j], events[j]);
    var v := Returns(states[i], events[i].t).value;
    GivenStaysInRun(states, events, i + 1, j, events[i].t, v);
    GivenStaysInRun(states, events, i + 1, j + 1, events[i].t, v);
  }

  /** When no call is in flight the counter counts exactly the threads that have a producer:
      failed allocations took back what they had added. */
  lemma QuiescentCount(states: seq<State>, events: seq<Event>, i: nat)
    requires IsRun(states, events) && i < |states|
    requires forall t: Thread :: PcOf(states[i], t).Idle?
    ensures states[i].count == |set t | t in states[i].records && states[i].records[t].given.Some?|
    ensures !states[i].resizing
  {
    EveryReachableStateIsSound(states, events, i);
    var s := states[i];
    forall t | t in s.records ensures s.records[t].count.Some? <==> s.records[t].given.Some? {
      assert ThreadInv(s, t) && PcOf(s, t).Idle?;
    }
    assert Holders(s.records) == set t | t in s.records && s.records[t].given.Some?;
    assert s.locker.Some? ==> InResize(PcOf(s, s.locker.value));
  }

  /** At most one thread is inside the resize at any time. */
  lemma OneResizer(states: seq<State>, events: seq<Event>, i: nat, t: Thread, u: Thread)
    requires IsRun(states, events) && i < |states|
    requires InResize(PcOf(states[i], t)) && InResize(PcOf(states[i], u))
    ensures t == u && states[i].resizing
  {
    EveryReachableStateIsSound(states, events, i);
  }
}
