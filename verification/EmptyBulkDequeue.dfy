/** What a bulk dequeue that asks for 0 items does to an implicit producer's queue: it claims
    nothing, but still looks up the block at the head and adds 0 to its count. If the block has
    been counted full meanwhile, it is given back a second time. */
module EmptyBulkDequeue {
  import opened Arithmetic
  import opened Collections
  import opened Words
  import opened BlockIndex
  import opened ImplicitQueue
  import opened T = ImplicitQueueTheorems
  import Claims

  // ---------------------------------------------------------------------------
  // Playing events
  // ---------------------------------------------------------------------------

  /** The claim protocol's assumption on its words. */
  predicate InWindow(q: Queue, e: Event) {
    e.Consume? && ReaderOf(q, e.t).Resting? ==> Claims.InWindow(q.claims, Claims.Step(e.t))
  }

  ghost predicate CanPlay(q: Queue, events: seq<Event>)
    decreases |events|
  {
    events == [] || (Possible(q, events[0]) && InWindow(q, events[0]) && CanPlay(Do(q, events[0]), events[1..]))
  }

  ghost function Play(q: Queue, events: seq<Event>): Queue
    requires CanPlay(q, events)
    decreases |events|
  {
    if events == [] then q else Play(Do(q, events[0]), events[1..])
  }

  /** The events lead from q to q'. */
  ghost predicate Leads(q: Queue, events: seq<Event>, q': Queue) { CanPlay(q, events) && Play(q, events) == q' }

  lemma Step(q: Queue, e: Event)
    requires Possible(q, e) && InWindow(q, e)
    ensures Leads(q, [e], Do(q, e))
  {
    assert [e][1..] == [];
    assert CanPlay(Do(q, e), []);
  }

  lemma {:induction false} Then(q: Queue, a: seq<Event>, q1: Queue, b: seq<Event>, q2: Queue)
    requires Leads(q, a, q1) && Leads(q1, b, q2)
    ensures Leads(q, a + b, q2)
    decreases |a|
  {
    if a == [] {
      assert a + b == b;
    } else {
      assert (a + b)[1..] == a[1..] + b;
      Then(Do(q, a[0]), a[1..], q1, b, q2);
    }
  }

  lemma ThenStep(q: Queue, a: seq<Event>, q1: Queue, e: Event)
    requires Leads(q, a, q1) && Possible(q1, e) && InWindow(q1, e)
    ensures Leads(q, a + [e], Do(q1, e))
  {
    Step(q1, e);
    Then(q, a, q1, [e], Do(q1, e));
  }

  /** The states on the way. */
  ghost function States(q: Queue, events: seq<Event>): (states: seq<Queue>)
    requires CanPlay(q, events)
    ensures |states| == |events| + 1 && states[0] == q
    decreases |events|
  {
    if events == [] then [q] else [q] + States(Do(q, events[0]), events[1..])
  }

  lemma {:induction false} StatesFollow(q: Queue, events: seq<Event>, i: nat)
    requires CanPlay(q, events) && i < |events|
    ensures var states := States(q, events);
            Possible(states[i], events[i]) && InWindow(states[i], events[i]) && states[i + 1] == Do(states[i], events[i])
    decreases |events|
  {
    if i == 0 {
    } else {
      StatesFollow(Do(q, events[0]), events[1..], i - 1);
    }
  }

  lemma {:induction false} StateAfter(q: Queue, a: seq<Event>, b: seq<Event>)
    requires CanPlay(q, a + b) && CanPlay(q, a)
    ensures States(q, a + b)[|a|] == Play(q, a)
    decreases |a|
  {
    if a == [] {
    } else {
      assert (a + b)[1..] == a[1..] + b;
      StateAfter(Do(q, a[0]), a[1..], b);
    }
  }

  // ---------------------------------------------------------------------------
  // A full block
  // ---------------------------------------------------------------------------

  /** One block, block 1, found through entry 0, holds the first n items; nobody reads. */
  ghost predicate OneBlock(q: Queue, n: nat) {
    && q.claims == Claims.INIT.(tail := n) && q.producer.Ready? && q.readers == map[]
    && q.blockOf == [1] && q.fates == [Open] && q.tailBlock == 1
    && Index(q.headers, q.entries) && EntryAt(q.entries, 0) == Entry(0, 1)
    && 1 in q.counts && q.counts[1] == 0 && Holds(q.cells, 0, n)
  }

  /** The index at its first size, its tail at slot 0, with an entry yet unused behind it. */
  predicate Index(headers: seq<Header>, entries: seq<Entry>) {
    && |headers| == 1 && headers[0].size == 32 && headers[0].tail == 0
    && RefAt(headers[0], 0) == 0 && RefAt(headers[0], 1) == 1
    && |entries| > 1 && entries[0].key == 0 && entries[1].key == INVALID_BLOCK_BASE
  }

  predicate Holds(cells: map<Block, seq<Option<Item>>>, lo: nat, hi: nat) {
    1 in cells && |cells[1]| == BLOCK_SIZE && forall j :: lo <= j < hi <= BLOCK_SIZE ==> cells[1][j].Some?
  }

  const START: Queue := Init(true, [])

  lemma FindsEntry() returns (events: seq<Event>)
    ensures Leads(START, events, START.(producer := StoreKey(7)))
  {
    var p := Produce(None, None);
    var q1 := START.(producer := LoadHead(7));
    Step(START, Enqueue(7));
    var q2 := START.(producer := CheckEntry(7));
    assert Do(q1, p) == q2;
    ThenStep(START, [Enqueue(7)], q1, p);
    assert NewTail(q2) == 0 && NewRef(q2) == 0;
    assert Do(q2, p) == START.(producer := StoreKey(7));
    ThenStep(START, [Enqueue(7)] + [p], q2, p);
    events := [Enqueue(7)] + [p] + [p];
  }

  /** Up to the step that takes the block. */
  lemma FirstKey() returns (events: seq<Event>, q: Queue)
    ensures Leads(START, events, q) && q.producer == TakeBlock(7)
    ensures q == START.(producer := q.producer, entries := q.entries, headers := q.headers, entryOf := q.entryOf)
    ensures Index(q.headers, q.entries)
  {
    var p := Produce(None, None);
    var a := FindsEntry();
    var q3 := START.(producer := StoreKey(7));
    assert NewTail(q3) == 0 && NewRef(q3) == 0;
    ThenStep(START, a, q3, p);
    var q4 := Do(q3, p);
    assert NewTail(q4) == 0;
    ThenStep(START, a + [p], q4, p);
    events, q := a + [p] + [p], Do(q4, p);
  }

  /** The block comes and is entered. */
  lemma FirstEntry() returns (events: seq<Event>, q: Queue)
    ensures Leads(START, events, q) && q.producer == StoreItem(7) && q.claims == Claims.INIT && q.readers == map[]
    ensures q.blockOf == [1] && q.fates == [Open] && q.tailBlock == 1 && q.items == []
    ensures Index(q.headers, q.entries) && EntryAt(q.entries, 0) == Entry(0, 1)
    ensures 1 in q.counts && q.counts[1] == 0 && Holds(q.cells, 0, 0)
  {
    var a, q0 := FirstKey();
    ThenStep(START, a, q0, Produce(Some(1), None));
    var q1 := Do(q0, Produce(Some(1), None));
    assert q1 == q0.(counts := q0.counts[1 := 0], cells := q0.cells[1 := seq(BLOCK_SIZE, _ => None)], producer := StoreValue(7, 1));
    ThenStep(START, a + [Produce(Some(1), None)], q1, Produce(None, None));
    events, q := a + [Produce(Some(1), None)] + [Produce(None, None)], Do(q1, Produce(None, None));
    assert TailRef(q1) == 0;
  }

  /** The two stores that put an item in and publish it. */
  lemma StoresItem(q: Queue, n: nat) returns (events: seq<Event>, q': Queue)
    requires q.producer == StoreItem(7) && q.claims == Claims.INIT.(tail := n) && n < BLOCK_SIZE
    requires q.tailBlock == 1 && Holds(q.cells, 0, n)
    ensures Leads(q, events, q') && Holds(q'.cells, 0, n + 1)
    ensures q' == q.(producer := Ready, cells := q'.cells, items := q'.items, claims := Claims.INIT.(tail := n + 1))
  {
    var p := Produce(None, None);
    var q1 := Do(q, p);
    Step(q, p);
    assert Word(n) == n && n % BLOCK_SIZE == n;
    ThenStep(q, [p], q1, p);
    events, q' := [p] + [p], Do(q1, p);
  }

  lemma {:induction false} Filled(n: nat) returns (events: seq<Event>, q: Queue)
    requires 1 <= n <= BLOCK_SIZE
    ensures Leads(START, events, q) && OneBlock(q, n)
  {
    if n == 1 {
      var a, q0 := FirstEntry();
      var b, q1 := StoresItem(q0, 0);
      Then(START, a, q0, b, q1);
      events, q := a + b, q1;
    } else {
      var a, q0 := Filled(n - 1);
      assert Word(n - 1) == n - 1;
      ThenStep(START, a, q0, Enqueue(7));
      var q1 := Do(q0, Enqueue(7));
      assert q1 == q0.(producer := StoreItem(7));
      var b, q2 := StoresItem(q1, n - 1);
      Then(START, a + [Enqueue(7)], q1, b, q2);
      events, q := a + [Enqueue(7)] + b, q2;
    }
  }

  // ---------------------------------------------------------------------------
  // A dequeue
  // ---------------------------------------------------------------------------

  lemma ClaimsStep(q: Queue, t: Thread)
    requires ReaderOf(q, t).Resting? && Claims.CanDo(q.claims, Claims.Step(t)) && !Claims.PcOf(q.claims, t).Claim?
    ensures Leads(q, [Consume(t)], q.(claims := Claims.Do(q.claims, Claims.Step(t))))
  {
    Step(q, Consume(t));
  }

  /** The counters of a queue at rest: at least one item, fewer than half the range. */
  predicate HasItems(c: Claims.State) {
    c.optimistic - c.overcommit == c.head < c.tail < c.head + HALF
  }

  function Want(c: Claims.State, max: nat): nat
    requires c.head <= c.tail
  {
    if max < c.tail - c.head then max else c.tail - c.head
  }

  /** The call, up to the reservation. */
  lemma Reserves(q: Queue, t: Thread, max: nat) returns (events: seq<Event>, c: Claims.State)
    requires ReaderOf(q, t).Resting? && Claims.PcOf(q.claims, t).Idle? && HasItems(q.claims)
    ensures Leads(q, events, q.(claims := c))
    ensures c == q.claims.(pc := q.claims.pc[t := Claims.Reserve(Want(q.claims, max), q.claims.overcommit)])
  {
    var c0, kind := q.claims, Claims.Bulk(max);
    Claims.TestsBelowHalfRange(kind, c0.tail, c0.optimistic, c0.overcommit, c0.tail - c0.head, 0);
    var call, e := CallDequeue(t, kind), Consume(t);
    var c1 := c0.(pc := c0.pc[t := Claims.LoadTail(kind)]);
    Step(q, call);
    var c2 := c0.(pc := c0.pc[t := Claims.LoadOvercommit(kind, c0.tail)]);
    assert Claims.Do(c1, Claims.Step(t)) == c2;
    ClaimsStep(q.(claims := c1), t);
    Then(q, [call], q.(claims := c1), [e], q.(claims := c2));
    var c3 := c0.(pc := c0.pc[t := Claims.LoadOptimistic(kind, c0.tail, c0.overcommit)]);
    assert Claims.Do(c2, Claims.Step(t)) == c3;
    ClaimsStep(q.(claims := c2), t);
    Then(q, [call] + [e], q.(claims := c2), [e], q.(claims := c3));
    c := c0.(pc := c0.pc[t := Claims.Reserve(Want(c0, max), c0.overcommit)]);
    assert Claims.Do(c3, Claims.Step(t)) == c;
    ClaimsStep(q.(claims := c3), t);
    Then(q, [call] + [e] + [e], q.(claims := c3), [e], q.(claims := c));
    events := [call] + [e] + [e] + [e];
  }

  /** And up to the claim. */
  lemma Looks(q: Queue, t: Thread, max: nat) returns (events: seq<Event>, c: Claims.State, k: nat)
    requires ReaderOf(q, t).Resting? && Claims.PcOf(q.claims, t).Idle? && HasItems(q.claims)
    ensures Leads(q, events, q.(claims := c)) && k < |c.log| && |c.log| >= |q.claims.log|
    ensures c == q.claims.(pc := q.claims.pc[t := Claims.Claim(k, Want(q.claims, max))],
                           optimistic := q.claims.optimistic + Want(q.claims, max), log := c.log)
  {
    var c0, e, want := q.claims, Consume(t), Want(q.claims, max);
    var a, c1 := Reserves(q, t, max);
    Claims.TestsBelowHalfRange(Claims.Bulk(max), c0.tail, c0.optimistic, c0.overcommit, c0.tail - c0.head, want);
    k := |c0.log|;
    ClaimsStep(q.(claims := c1), t);
    var c2 := Claims.Do(c1, Claims.Step(t));
    assert c2.pc == c0.pc[t := Claims.ReloadTail(k, c0.optimistic, want, c0.overcommit)];
    Then(q, a, q.(claims := c1), [e], q.(claims := c2));
    ClaimsStep(q.(claims := c2), t);
    c := Claims.Do(c2, Claims.Step(t));
    assert c.pc == c0.pc[t := Claims.Claim(k, want)];
    Then(q, a + [e], q.(claims := c2), [e], q.(claims := c));
    events := a + [e] + [e];
  }

  /** `headIndex.fetch_add`, and the reading starts. */
  lemma Takes(q: Queue, t: Thread) returns (c: Claims.State)
    requires ReaderOf(q, t).Resting? && Claims.PcOf(q.claims, t).Claim? && Claims.PcOf(q.claims, t).attempt < |q.claims.log|
    ensures |c.log| == |q.claims.log|
    ensures var g := Claims.PcOf(q.claims, t).grant;
            && c == q.claims.(head := q.claims.head + g, pc := q.claims.pc[t := Claims.Idle], log := c.log)
            && Leads(q, [Consume(t)], q.(claims := c, owner := q.owner + seq(g, _ => t),
                                         readers := q.readers[t := LoadIndex(q.claims.head, q.claims.head + g)]))
  {
    c := Claims.Do(q.claims, Claims.Step(t));
    Step(q, Consume(t));
  }

  lemma ReaderStep(q: Queue, t: Thread)
    requires !ReaderOf(q, t).Resting?
    ensures Leads(q, [Consume(t)], DoRead(q, t, ReaderOf(q, t)))
  {
    Step(q, Consume(t));
  }

  lemma LoadsKey(q: Queue, t: Thread, end: nat) returns (events: seq<Event>)
    requires ReaderOf(q, t) == LoadIndex(0, end) && Index(q.headers, q.entries)
    ensures Leads(q, events, Goto(q, t, LoadKey(0, 0, q.headers[0].at, 0, end)))
  {
    var e := Consume(t);
    var q1 := Goto(q, t, LoadIndexTail(0, 0, end));
    ReaderStep(q, t);
    var q2 := Goto(q, t, LoadKey(0, 0, q.headers[0].at, 0, end));
    assert DoRead(q1, t, ReaderOf(q1, t)) == q2;
    ReaderStep(q1, t);
    Then(q, [e], q1, [e], q2);
    events := [e] + [e];
  }

  lemma ComputesSlot(q: Queue, t: Thread, seen: int, end: nat)
    requires ReaderOf(q, t) == LoadKey(0, 0, seen, 0, end) && Index(q.headers, q.entries)
    ensures Leads(q, [Consume(t)], Goto(q, t, LoadValue(0, 0, 0, end)))
  {
    FirstCapacity();
    assert LookupSlot(Word(0), 0, 0, 32) == 0;
    ReaderStep(q, t);
  }

  /** The reader once it has loaded the block of index 0. */
  function Found(b: Block, end: nat): Reader {
    if end == 0 then AddEmpty(0, 0, b, 0, 0, 0) else ReadItem(0, 0, b, 0, 0, end, end)
  }

  lemma LoadsBlock(q: Queue, t: Thread, end: nat)
    requires ReaderOf(q, t) == LoadValue(0, 0, 0, end) && (end == 0 || end == BLOCK_SIZE) && Index(q.headers, q.entries)
    ensures Leads(q, [Consume(t)], Goto(q, t, Found(q.entries[0].value, end)))
  {
    assert Stop(0, 0) == 0 && Stop(0, BLOCK_SIZE) == BLOCK_SIZE;
    ReaderStep(q, t);
  }

  /** Index 0 leads to entry 0. */
  lemma LooksUp(q: Queue, t: Thread, end: nat) returns (events: seq<Event>)
    requires ReaderOf(q, t) == LoadIndex(0, end) && (end == 0 || end == BLOCK_SIZE) && Index(q.headers, q.entries)
    ensures Leads(q, events, Goto(q, t, Found(q.entries[0].value, end)))
  {
    var e := Consume(t);
    var a := LoadsKey(q, t, end);
    var q2 := Goto(q, t, LoadKey(0, 0, q.headers[0].at, 0, end));
    ComputesSlot(q2, t, q.headers[0].at, end);
    var q3 := Goto(q, t, LoadValue(0, 0, 0, end));
    assert Goto(q2, t, LoadValue(0, 0, 0, end)) == q3;
    Then(q, a, q2, [e], q3);
    LoadsBlock(q3, t, end);
    var q4 := Goto(q, t, Found(q.entries[0].value, end));
    assert Goto(q3, t, Found(q.entries[0].value, end)) == q4;
    Then(q, a + [e], q3, [e], q4);
    events := a + [e] + [e];
  }

  lemma FirstCapacity()
    ensures IsCapacity(32)
  {
    PowerTimes16(2);
  }

  /** Reading the block to its end. */
  lemma {:induction false} ReadsOn(q: Queue, t: Thread, i: nat) returns (events: seq<Event>, q': Queue)
    requires i < BLOCK_SIZE && ReaderOf(q, t) == ReadItem(0, 0, 1, 0, i, BLOCK_SIZE, BLOCK_SIZE)
    ensures Leads(q, events, q')
    ensures q' == q.(cells := q'.cells, delivered := q'.delivered,
                     readers := q.readers[t := AddEmpty(0, 0, 1, 0, BLOCK_SIZE, BLOCK_SIZE)])
    decreases BLOCK_SIZE - i
  {
    ReaderStep(q, t);
    var q1 := DoRead(q, t, ReaderOf(q, t));
    if i + 1 == BLOCK_SIZE {
      events, q' := [Consume(t)], q1;
    } else {
      var b;
      b, q' := ReadsOn(q1, t, i + 1);
      Then(q, [Consume(t)], q1, b, q');
      events := [Consume(t)] + b;
    }
  }

  /** Counting block 1 full, and up to giving it back. */
  lemma CountsFull(q: Queue, t: Thread, stop: nat) returns (events: seq<Event>, q': Queue)
    requires ReaderOf(q, t) == AddEmpty(0, 0, 1, 0, stop, stop) && CountIn(q.counts, 1) + stop == BLOCK_SIZE
    ensures Leads(q, events, q')
    ensures q'.entries == WithValue(q.entries, RefAt(HeaderAt(q.headers, 0), 0), NULL)
    ensures q' == q.(counts := q.counts[1 := BLOCK_SIZE], entries := q'.entries, fates := q'.fates,
                     readers := q.readers[t := ReturnBlock(0, 0, 1, 0, stop, stop)])
  {
    ReaderStep(q, t);
    var q1 := DoRead(q, t, ReaderOf(q, t));
    ReaderStep(q1, t);
    q' := DoRead(q1, t, ReaderOf(q1, t));
    Then(q, [Consume(t)], q1, [Consume(t)], q');
    events := [Consume(t)] + [Consume(t)];
  }

  /** A dequeue that claims `Want` items from index 0 on and finds block 1. */
  lemma FindsBlock(q: Queue, t: Thread, max: nat) returns (events: seq<Event>, q': Queue)
    requires ReaderOf(q, t).Resting? && Claims.PcOf(q.claims, t).Idle? && (max == 0 || max == BLOCK_SIZE)
    requires HasItems(q.claims) && q.claims.head == 0 && q.claims.tail == BLOCK_SIZE
    requires Index(q.headers, q.entries) && EntryAt(q.entries, 0) == Entry(0, 1)
    ensures Leads(q, events, q')
    ensures q' == q.(claims := q'.claims, owner := q'.owner, readers := q.readers[t := Found(1, max)])
    ensures q'.claims == q.claims.(head := max, optimistic := q.claims.optimistic + max,
                                   pc := q.claims.pc[t := Claims.Idle], log := q'.claims.log)
    ensures |q'.claims.log| >= |q.claims.log|
  {
    var a, c1, k := Looks(q, t, max);
    var q1 := q.(claims := c1);
    var c2 := Takes(q1, t);
    var q2 := q1.(claims := c2, owner := q.owner + seq(max, _ => t), readers := q.readers[t := LoadIndex(0, max)]);
    Then(q, a, q1, [Consume(t)], q2);
    var b := LooksUp(q2, t, max);
    q' := Goto(q2, t, Found(1, max));
    Then(q, a + [Consume(t)], q2, b, q');
    events := a + [Consume(t)] + b;
  }

  /** A dequeue of the whole block, up to giving it back. */
  lemma Drains(q: Queue, t: Thread) returns (events: seq<Event>, q': Queue)
    requires ReaderOf(q, t).Resting? && Claims.PcOf(q.claims, t).Idle?
    requires HasItems(q.claims) && q.claims.head == 0 && q.claims.tail == BLOCK_SIZE
    requires Index(q.headers, q.entries) && EntryAt(q.entries, 0) == Entry(0, 1) && CountIn(q.counts, 1) == 0
    ensures Leads(q, events, q') && q'.entries == WithValue(q.entries, 0, NULL) && q'.headers == q.headers
    ensures q'.readers == q.readers[t := ReturnBlock(0, 0, 1, 0, BLOCK_SIZE, BLOCK_SIZE)] && CountIn(q'.counts, 1) == BLOCK_SIZE
    ensures q'.claims.head == BLOCK_SIZE && q'.claims.pc == q.claims.pc[t := Claims.Idle] && |q'.claims.log| >= |q.claims.log|
  {
    var a, q1 := FindsBlock(q, t, BLOCK_SIZE);
    var b, q2 := ReadsOn(q1, t, 0);
    Then(q, a, q1, b, q2);
    var c;
    c, q' := CountsFull(q2, t, BLOCK_SIZE);
    Then(q, a + b, q2, c, q');
    events := a + b + c;
  }

  // ---------------------------------------------------------------------------
  // What goes wrong
  // ---------------------------------------------------------------------------

  /** A dequeue of 0 items, up to the count: it has claimed nothing and found the full block. */
  lemma AsksForNothing(q: Queue, t: Thread) returns (events: seq<Event>, q': Queue)
    requires OneBlock(q, BLOCK_SIZE)
    ensures Leads(q, events, q') && q'.readers == map[t := AddEmpty(0, 0, 1, 0, 0, 0)]
    ensures q' == q.(claims := q'.claims, owner := q'.owner, readers := q'.readers)
    ensures HasItems(q'.claims) && q'.claims.head == 0 && q'.claims.tail == BLOCK_SIZE && q'.claims.pc == map[t := Claims.Idle]
  {
    events, q' := FindsBlock(q, t, 0);
  }

  lemma Reached(a: seq<Event>, b: seq<Event>)
    requires CanPlay(START, a + b) && CanPlay(START, a)
    ensures IsTrace(States(START, a + b), a + b) && |a| < |States(START, a + b)|
    ensures States(START, a + b)[|a|] == Play(START, a)
    ensures forall i :: 0 <= i < |a + b| ==> InWindow(States(START, a + b)[i], (a + b)[i])
  {
    forall i | 0 <= i < |a + b|
      ensures Possible(States(START, a + b)[i], (a + b)[i]) && InWindow(States(START, a + b)[i], (a + b)[i])
      ensures States(START, a + b)[i + 1] == Do(States(START, a + b)[i], (a + b)[i])
    {
      StatesFollow(START, a + b, i);
    }
    StateAfter(START, a, b);
  }

  /** The run up to the first time the block is given back, and on to the second. */
  lemma TwoReturns() returns (a: seq<Event>, b: seq<Event>, q: Queue, q': Queue)
    ensures Leads(START, a, q) && GivesBack(q, Consume(1), 0)
    ensures Leads(START, a + ([Consume(1)] + b), q') && GivesBack(q', Consume(0), 0)
  {
    var e0, q0 := Filled(BLOCK_SIZE);
    var e1, q1 := AsksForNothing(q0, 0);
    Then(START, e0, q0, e1, q1);
    var e2;
    e2, q := Drains(q1, 1);
    Then(START, e0 + e1, q1, e2, q);
    a := e0 + e1 + e2;
    ReaderStep(q, 1);
    var q3 := DoRead(q, 1, ReaderOf(q, 1));
    b, q' := CountsFull(q3, 0, 0);
    Then(q, [Consume(1)], q3, b, q');
    Then(START, a, q, [Consume(1)] + b, q');
  }

  /** A run within the words' window in which the same block is given back twice. */
  lemma GivenBackTwice() returns (states: seq<Queue>, events: seq<Event>, i: nat, j: nat)
    ensures IsTrace(states, events) && i < j < |events|
    ensures forall k :: 0 <= k < |events| ==> InWindow(states[k], events[k])
    ensures GivesBack(states[i], events[i], 0) && GivesBack(states[j], events[j], 0)
  {
    var a, b, q, q' := TwoReturns();
    var c := a + ([Consume(1)] + b);
    Step(q', Consume(0));
    Then(START, c, q', [Consume(0)], Do(q', Consume(0)));
    events := c + [Consume(0)];
    Reached(c, [Consume(0)]);
    states, i, j := States(START, events), |a|, |c|;
    assert events == a + ([Consume(1)] + b + [Consume(0)]);
    Reached(a, [Consume(1)] + b + [Consume(0)]);
  }

  /** The items are gone before the empty claim. */
  lemma ClaimsTooLate() returns (events: seq<Event>, q: Queue)
    ensures Leads(START, events, q) && ReaderOf(q, 0) == LoadIndex(BLOCK_SIZE, BLOCK_SIZE)
    ensures Index(q.headers, q.entries)
  {
    var e0, q0 := Filled(BLOCK_SIZE);
    var e1, c1, k := Looks(q0, 0, 0);
    var q1 := q0.(claims := c1);
    Then(START, e0, q0, e1, q1);
    var e2, q2 := Drains(q1, 1);
    Then(START, e0 + e1, q1, e2, q2);
    var c3 := Takes(q2, 0);
    q := q2.(claims := c3, owner := q2.owner + seq(0, _ => 0), readers := q2.readers[0 := LoadIndex(BLOCK_SIZE, BLOCK_SIZE)]);
    Then(START, e0 + e1 + e2, q2, [Consume(0)], q);
    events := e0 + e1 + e2 + [Consume(0)];
  }

  lemma EntryIsUnused(q: Queue, t: Thread, seen: int)
    requires Index(q.headers, q.entries) && ReaderOf(q, t) == LoadKey(0, 0, seen, BLOCK_SIZE, BLOCK_SIZE)
    ensures !LookupIsSound(q, t)
  {
    FirstCapacity();
    assert LookupSlot(Word(32), 0, 0, 32) == 1;
  }

  /** A run with a lookup of a block that was never allocated: its assertion fails. */
  lemma LooksUpNothing() returns (states: seq<Queue>, events: seq<Event>)
    ensures IsTrace(states, events) && ReaderOf(states[|events|], 0).LoadKey? && !LookupIsSound(states[|events|], 0)
    ensures forall k :: 0 <= k < |events| ==> InWindow(states[k], events[k])
  {
    var a, q := ClaimsTooLate();
    var q1 := Goto(q, 0, LoadIndexTail(0, BLOCK_SIZE, BLOCK_SIZE));
    ReaderStep(q, 0);
    Then(START, a, q, [Consume(0)], q1);
    var q2 := Goto(q1, 0, LoadKey(0, 0, q.headers[0].at, BLOCK_SIZE, BLOCK_SIZE));
    ReaderStep(q1, 0);
    Then(START, a + [Consume(0)], q1, [Consume(0)], q2);
    events := a + [Consume(0)] + [Consume(0)];
    states := States(START, events);
    assert events + [] == events;
    Reached(events, []);
    EntryIsUnused(q2, 0, q.headers[0].at);
  }

  // ---------------------------------------------------------------------------
  // The exact condition
  // ---------------------------------------------------------------------------

  /** What the code does within the words' window, with or without requests for 0 items. */
  ghost predicate IsUse(states: seq<Queue>, events: seq<Event>, zeroAllowed: bool) {
    && IsTrace(states, events)
    && (forall k :: 0 <= k < |events| ==> InWindow(states[k], events[k]))
    && (zeroAllowed || forall e :: e in events ==> AsksForItems(e))
  }

  lemma UseWithoutZero(states: seq<Queue>, events: seq<Event>)
    requires IsUse(states, events, false)
    ensures IsRun(states, events)
  {
    forall i | 0 <= i < |events| ensures CanDo(states[i], events[i]) {
      assert InWindow(states[i], events[i]);
      if events[i].Consume? { NoneClaimsNothing(states, events, i, events[i].t); }
    }
  }

  ghost predicate ReturnedTwice(states: seq<Queue>, events: seq<Event>) {
    |states| == |events| + 1 &&
    exists i: nat, j: nat, p: nat :: i < j < |events| && GivesBack(states[i], events[i], p) && GivesBack(states[j], events[j], p)
  }

  /** No block is given back twice, whatever producer and consumers do, exactly when no bulk
      dequeue asks for 0 items. */
  lemma ReturnedOnceUnlessZero(zeroAllowed: bool)
    ensures (forall states: seq<Queue>, events: seq<Event> :: IsUse(states, events, zeroAllowed) ==> !ReturnedTwice(states, events))
            <==> !zeroAllowed
  {
    if zeroAllowed {
      var states, events, i, j := GivenBackTwice();
      assert IsUse(states, events, true) && ReturnedTwice(states, events);
    } else {
      forall states: seq<Queue>, events: seq<Event> | IsUse(states, events, false) ensures !ReturnedTwice(states, events) {
        UseWithoutZero(states, events);
        forall i: nat, j: nat, p: nat | i < j < |events| && GivesBack(states[i], events[i], p)
          ensures !GivesBack(states[j], events[j], p)
        {
          GivenBackAtMostOnce(states, events, i, j, p);
        }
      }
    }
  }

  ghost predicate LookupFails(states: seq<Queue>) {
    exists i: nat, t: Thread :: i < |states| && ReaderOf(states[i], t).LoadKey? && !LookupIsSound(states[i], t)
  }

  /** And the lookup's assertions hold under the same condition. */
  lemma LookupSoundUnlessZero(zeroAllowed: bool)
    ensures (forall states: seq<Queue>, events: seq<Event> :: IsUse(states, events, zeroAllowed) ==> !LookupFails(states))
            <==> !zeroAllowed
  {
    if zeroAllowed {
      var states, events := LooksUpNothing();
      assert IsUse(states, events, true) && LookupFails(states);
    } else {
      forall states: seq<Queue>, events: seq<Event> | IsUse(states, events, false) ensures !LookupFails(states) {
        UseWithoutZero(states, events);
        forall i: nat, t: Thread | i < |states| && ReaderOf(states[i], t).LoadKey? ensures LookupIsSound(states[i], t) {
          EveryReachableStateIsSound(states, events, i);
          LookupAssertionsHold(states[i], t);
        }
      }
    }
  }
}
