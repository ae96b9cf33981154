/** What one call of `get_or_add_implicit_producer` comes to: a producer, or nothing because an
    allocator refused; and how it gets there. */
module ProducerHashCalls {
  import opened Arithmetic
  import opened Collections
  import opened ProducerHash

  /** An allocator that this step asks refuses. */
  predicate Refused(s: State, e: Event) {
    e.Step? && match PcOf(s, e.t)
               case Allocate(_, _) => !e.granted
               case Create(_, _) => e.producer.None?
               case _ => false
  }

  /** Giving up after a refusal. */
  predicate GivingUp(p: Pc) { p.Refuse? || p.RefuseUnlock? }

  /** Thread t is inside the call that event i began. */
  ghost predicate Inside(states: seq<State>, events: seq<Event>, i: nat, j: nat, t: Thread) {
    i < j < |states| && i < |events| && events[i] == Call(t) && forall k :: i < k <= j ==> !PcOf(states[k], t).Idle?
  }

  ghost predicate RefusedWithin(states: seq<State>, events: seq<Event>, i: nat, j: nat, t: Thread) {
    exists k :: i < k < j && k < |states| && k < |events| && events[k].t == t && Refused(states[k], events[k])
  }

  lemma OthersStay(s: State, e: Event, t: Thread)
    requires Enabled(s, e) && e.t != t
    ensures PcOf(Do(s, e), t) == PcOf(s, t)
  {
    if e.Step? {
      hide Effect, Next, RecordsAfter, MakerAfter, LockerAfter;
      EffectMovesNobody(s, e.t);
    }
  }

  lemma EffectMovesNobody(s: State, t: Thread)
    ensures Effect(s, t).pc == s.pc
  {
    hide Met, Slot, WithKey, WithValue, Successor, HashOf, TableAt, Threshold, Capacity;
  }

  /** A step goes on, returns a producer, or follows from a refusal. */
  lemma StepEndsWith(s: State, e: Event)
    requires Enabled(s, e) && e.Step?
    ensures var p' := PcOf(Do(s, e), e.t);
            && (GivingUp(p') ==> GivingUp(PcOf(s, e.t)) || Refused(s, e))
            && (p'.Idle? ==> Returns(s, e.t).Some? || GivingUp(PcOf(s, e.t)))
  {
    hide Met, MetValue, Effect, RecordsAfter, MakerAfter, LockerAfter, Threshold, Capacity;
  }

  lemma {:induction false} GivesUpAfterRefusal(states: seq<State>, events: seq<Event>, i: nat, j: nat, t: Thread)
    requires IsRun(states, events) && Inside(states, events, i, j, t)
    ensures GivingUp(PcOf(states[j], t)) ==> RefusedWithin(states, events, i, j, t)
    decreases j
  {
    hide Do, Enabled, GivingUp, Refused;
    if j == i + 1 {
      CallBegins(states[i], t);
    } else {
      GivesUpAfterRefusal(states, events, i, j - 1, t);
      var s, e := states[j - 1], events[j - 1];
      if e.t != t { OthersStay(s, e, t); } else { CallsAreSteps(s, e); StepEndsWith(s, e); }
    }
  }

  lemma CallBegins(s: State, t: Thread)
    requires Enabled(s, Call(t))
    ensures !GivingUp(PcOf(Do(s, Call(t)), t))
  {
  }

  lemma CallsAreSteps(s: State, e: Event)
    requires Enabled(s, e) && !PcOf(s, e.t).Idle?
    ensures e.Step?
  {
  }

  /** In every run a call that has ended has returned a producer, unless an allocator refused in
      that very call. */
  lemma ReturnsOrIsRefused(states: seq<State>, events: seq<Event>, i: nat, j: nat, t: Thread)
    requires IsRun(states, events) && Inside(states, events, i, j, t) && j < |events| && PcOf(states[j + 1], t).Idle?
    ensures (events[j].t == t && Returns(states[j], t).Some?) || RefusedWithin(states, events, i, j, t)
  {
    hide Do, Enabled, GivingUp, Refused;
    GivesUpAfterRefusal(states, events, i, j, t);
    var s, e := states[j], events[j];
    if e.t != t { OthersStay(s, e, t); } else { CallsAreSteps(s, e); StepEndsWith(s, e); }
  }

  // ---------------------------------------------------------------------------
  // Resizing
  // ---------------------------------------------------------------------------

  lemma SuccessorCapacity(table: Table, n: nat)
    requires Capacity(table) > 0
    ensures var c := Capacity(Successor(table, n));
            n < c / 2 && c >= 2 * Capacity(table) && (c == 2 * Capacity(table) || n >= c / 4)
  {
  }

  /** A table is added only when a thread drew a count of at least half the capacity of the current
      one. It is twice as large, or, if the count is then still not below half of it, twice as large
      again, as often as that takes and no more. */
  lemma EnlargedAtHalf(s: State, e: Event)
    requires Inv(s) && Enabled(s, e) && |Do(s, e).tables| > |s.tables|
    ensures e.Step? && PcOf(s, e.t).Publish? && |Do(s, e).tables| == |s.tables| + 1
    ensures var n := PcOf(s, e.t).n;
            var before, after := Capacity(s.tables[|s.tables| - 1]), Capacity(Do(s, e).tables[|s.tables|]);
            && RecordOf(s, e.t).count == Some(n) && n >= before / 2
            && n < after / 2 && after >= 2 * before && (after == 2 * before || n >= after / 4)
  {
    hide Inv, Do, Enabled, Successor;
    OnlyPublishAdds(s, e);
    PublishesCurrent(s, e.t);
    SuccessorCapacity(s.tables[|s.tables| - 1], PcOf(s, e.t).n);
  }

  lemma OnlyPublishAdds(s: State, e: Event)
    requires Enabled(s, e)
    ensures |Do(s, e).tables| > |s.tables| ==> e.Step? && PcOf(s, e.t).Publish?
    ensures e.Step? && PcOf(s, e.t).Publish? ==>
              Do(s, e).tables == s.tables + [Successor(TableAt(s, PcOf(s, e.t).main), PcOf(s, e.t).n)]
  {
    if e.Step? {
      hide Effect, Next, Successor, RecordsAfter, MakerAfter, LockerAfter;
      EffectOnTables(s, e.t);
    }
  }

  lemma EffectOnTables(s: State, t: Thread)
    ensures if PcOf(s, t).Publish? then Effect(s, t).tables == s.tables + [Successor(TableAt(s, PcOf(s, t).main), PcOf(s, t).n)]
            else |Effect(s, t).tables| == |s.tables|
  {
    hide Successor, Met, Slot, HashOf, WithKey, WithValue, Capacity;
  }

  lemma PublishesCurrent(s: State, t: Thread)
    requires Inv(s) && PcOf(s, t).Publish?
    ensures s.tables != [] && Capacity(s.tables[|s.tables| - 1]) > 0 && PcOf(s, t).main == |s.tables| - 1
    ensures RecordOf(s, t).count == Some(PcOf(s, t).n) && PcOf(s, t).n >= Capacity(s.tables[|s.tables| - 1]) / 2
  {
    hide CountInv, LockInv, KeysInv, HomeOk;
    assert ThreadInv(s, t);
    assert Shape(s.tables[|s.tables| - 1]);
  }

  /** Insertion goes ahead exactly below three quarters. */
  lemma SettlesBelowThreeQuarters(s: State, main: nat, n: nat)
    requires main < |s.tables| && Shape(s.tables[main]) && Capacity(s.tables[main]) >= 4
    ensures Settle(s, main, n) == Create(main, n) <==> 4 * n < 3 * Capacity(s.tables[main])
  {
    var c := Capacity(s.tables[main]);
    assert IsPowerOfTwo(4) by { assert IsPowerOfTwo(2); }
    PowersDivide(4, c);
  }

  // ---------------------------------------------------------------------------
  // Progress
  // ---------------------------------------------------------------------------

  /** What of a table a probe at distance k has not seen yet. */
  function Ahead(tables: seq<Table>, j: nat, k: nat): nat {
    if j < |tables| && k < Capacity(tables[j]) then Capacity(tables[j]) - k else 0
  }

  /** How far a thread is from the end of its call, the first number counting most. */
  function Distance(tables: seq<Table>, p: Pc): (nat, nat, nat) {
    match p
    case Idle => (0, 0, 0)
    case LoadMain => (13, 0, 0)
    case Lookup(_, j, k) => (12, j, Ahead(tables, j, k))
    case Count(_) => (11, 0, 0)
    case Copy(main, k, _) => (10, Ahead(tables, main, k), 1)
    case CopyCas(main, k, _) => (10, Ahead(tables, main, k), 0)
    case CopyValue(_, _, _) => (9, 0, 0)
    case Reload(_) => (9, 0, 0)
    case TryLock(_, _) => (8, 0, 0)
    case LockedLoad(_) => (7, 0, 0)
    case Allocate(_, _) => (6, 0, 0)
    case Publish(_, _) => (5, 0, 0)
    case Unlock(_, _) => (4, 0, 0)
    case Create(_, _) => (3, 0, 0)
    case Insert(main, k, _) => (2, Ahead(tables, main, k), 1)
    case InsertCas(main, k, _) => (2, Ahead(tables, main, k), 0)
    case InsertValue(_, _, _) => (1, 0, 0)
    case Refuse(_, _) => (2, 0, 0)
    case RefuseUnlock => (1, 0, 0)
  }

  predicate Less(a: (nat, nat, nat), b: (nat, nat, nat)) {
    a.0 < b.0 || (a.0 == b.0 && (a.1 < b.1 || (a.1 == b.1 && a.2 < b.2)))
  }

  /** The one place where a call may go round: another thread is resizing and the table is too full
      to insert. */
  predicate MayGoRound(s: State, t: Thread) { PcOf(s, t).TryLock? && s.resizing }

  /** The table a thread probes. */
  function ProbedTable(p: Pc): nat {
    match p
    case Lookup(_, j, _) => j
    case Copy(main, _, _) => main
    case CopyCas(main, _, _) => main
    case Insert(main, _, _) => main
    case InsertCas(main, _, _) => main
    case _ => 0
  }

  lemma CapacitiesStay(s: State, e: Event, j: nat)
    requires Enabled(s, e) && j < |s.tables|
    ensures j < |Do(s, e).tables| && Capacity(Do(s, e).tables[j]) == Capacity(s.tables[j])
  {
    if e.Step? {
      hide Next, RecordsAfter, MakerAfter, LockerAfter, Effect;
      EffectKeepsCapacity(s, e.t, j);
    }
  }

  lemma EffectKeepsCapacity(s: State, t: Thread, j: nat)
    requires j < |s.tables|
    ensures j < |Effect(s, t).tables| && Capacity(Effect(s, t).tables[j]) == Capacity(s.tables[j])
  {
    hide Slot, NewCapacity, HashOf, Successor;
    match PcOf(s, t)
    case CopyCas(main, k, _) => PutKeepsCapacity(s, main, HashOf(s, t), t, k, j);
    case InsertCas(main, k, _) => PutKeepsCapacity(s, main, HashOf(s, t), t, k, j);
    case _ =>
  }

  lemma PutKeepsCapacity(s: State, main: nat, h: nat, t: Thread, k: nat, j: nat)
    requires j < |s.tables|
    ensures var s' := PutKey(s, main, h, t, k); j < |s'.tables| && Capacity(s'.tables[j]) == Capacity(s.tables[j])
  {
    hide Slot, Met;
  }

  lemma DistanceKept(s: State, e: Event, p: Pc)
    requires Enabled(s, e) && ProbedTable(p) < |s.tables|
    ensures Distance(Do(s, e).tables, p) == Distance(s.tables, p)
  {
    hide Do, Enabled;
    CapacitiesStay(s, e, ProbedTable(p));
  }

  /** Probing: on to the next slot, or out of the loop. */
  lemma ProbeIsNearer(s: State, t: Thread, producer: Option<Producer>, granted: bool)
    requires Probing(PcOf(s, t)) && ProbedTable(PcOf(s, t)) < |s.tables| && Slots(PcOf(s, t)) < Capacity(s.tables[ProbedTable(PcOf(s, t))])
    ensures Less(Distance(s.tables, Next(s, t, producer, granted)), Distance(s.tables, PcOf(s, t)))
  {
    hide Met, MetValue, LoopHead, Settle;
  }

  predicate Probing(p: Pc) { p.Lookup? || p.Copy? || p.CopyCas? || p.Insert? || p.InsertCas? }

  /** How many slots a probe has passed. */
  function Slots(p: Pc): nat {
    match p
    case Lookup(_, _, k) => k
    case Copy(_, k, _) => k
    case CopyCas(_, k, _) => k
    case Insert(_, k, _) => k
    case InsertCas(_, k, _) => k
    case _ => 0
  }

  lemma OthersAreNearer(s: State, t: Thread, producer: Option<Producer>, granted: bool)
    requires !Probing(PcOf(s, t)) && !PcOf(s, t).Idle? && s.tables != [] && !MayGoRound(s, t)
    requires PcOf(s, t).Unlock? ==> PcOf(s, t).n < Capacity(TableAt(s, PcOf(s, t).main)) / 2
    ensures Less(Distance(s.tables, Next(s, t, producer, granted)), Distance(s.tables, PcOf(s, t)))
  {
    hide Met, MetValue, Settle, LoopHead, AfterLookup, HashOf;
    match PcOf(s, t)
    case TryLock(main, n) => SettlesNear(s, main, n);
    case Unlock(main, n) => SettlesNear(s, main, n);
    case Count(main) => SettlesNear(s, main, s.count + 1);
    case Reload(n) => SettlesNear(s, |s.tables| - 1, n);
    case _ =>
  }

  /** The top of the insertion loop leads to the lock or to the insertion. */
  lemma SettlesNear(s: State, main: nat, n: nat)
    ensures n < Capacity(TableAt(s, main)) / 2 ==> Settle(s, main, n) == Create(main, n)
    ensures LoopHead(s, main, n) == Create(main, n) || LoopHead(s, main, n) == TryLock(main, n)
  {
  }

  lemma NextIsThere(s: State, t: Thread, producer: Option<Producer>, granted: bool)
    requires Inv(s)
    ensures ProbedTable(Next(s, t, producer, granted)) < |s.tables|
  {
    hide Inv, Met, MetValue, Settle, LoopHead;
    MainIsThere(s, t);
    SettlesSomewhere(s, t);
  }

  /** The tables a thread is about to probe exist. */
  lemma MainIsThere(s: State, t: Thread)
    requires Inv(s)
    ensures s.tables != []
    ensures match PcOf(s, t)
            case Lookup(main, j, _) => j <= main < |s.tables|
            case Copy(main, _, _) => main < |s.tables|
            case CopyCas(main, _, _) => main < |s.tables|
            case Create(main, _) => main < |s.tables|
            case Insert(main, _, _) => main < |s.tables|
            case InsertCas(main, _, _) => main < |s.tables|
            case _ => true
  {
    hide CountInv, LockInv, KeysInv, HomeOk, Absent, Threshold, Made, Pending, Settled, Capacity;
    assert ThreadInv(s, t);
  }

  lemma SettlesSomewhere(s: State, t: Thread)
    ensures forall main: nat, n: nat :: ProbedTable(Settle(s, main, n)) == 0 && ProbedTable(LoopHead(s, main, n)) == 0
  {
  }

  lemma ProbesInside(s: State, t: Thread)
    requires Inv(s)
    ensures s.tables != []
    ensures var p := PcOf(s, t);
            && (Probing(p) ==> ProbedTable(p) < |s.tables| && Slots(p) < Capacity(s.tables[ProbedTable(p)]))
            && (p.Unlock? ==> p.n < Capacity(TableAt(s, p.main)) / 2)
  {
    hide CountInv, LockInv, KeysInv, HomeOk, Absent;
    assert ThreadInv(s, t);
  }

  /** Every own step brings a call nearer to its end, that one place aside; */
  lemma CallGoesOn(s: State, e: Event)
    requires Inv(s) && Enabled(s, e) && e.Step? && !MayGoRound(s, e.t)
    ensures Less(Distance(Do(s, e).tables, PcOf(Do(s, e), e.t)), Distance(s.tables, PcOf(s, e.t)))
  {
    hide Inv, Next, Distance, Less, Effect;
    ProbesInside(s, e.t);
    NextIsThere(s, e.t, e.producer, e.granted);
    DistanceKept(s, e, Next(s, e.t, e.producer, e.granted));
    if Probing(PcOf(s, e.t)) { ProbeIsNearer(s, e.t, e.producer, e.granted); } else { OthersAreNearer(s, e.t, e.producer, e.granted); }
  }

  /** and no step of another thread takes it back. */
  lemma OthersKeepDistance(s: State, e: Event, t: Thread)
    requires Inv(s) && Enabled(s, e) && e.t != t
    ensures Distance(Do(s, e).tables, PcOf(Do(s, e), t)) == Distance(s.tables, PcOf(s, t))
  {
    hide Inv, Do, Distance;
    ProbesInside(s, t);
    OthersStay(s, e, t);
    ProbedExists(s, t);
    DistanceKept(s, e, PcOf(s, t));
  }

  lemma ProbedExists(s: State, t: Thread)
    requires s.tables != [] && (Probing(PcOf(s, t)) ==> ProbedTable(PcOf(s, t)) < |s.tables|)
    ensures ProbedTable(PcOf(s, t)) < |s.tables|
  {
  }
}
