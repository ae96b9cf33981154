/** How the consumers of one producer queue claim items: `tailIndex`, `headIndex`,
    `dequeueOptimisticCount` and `dequeueOvercommit`, with single and bulk dequeues mixed.
    One atomic access is one step. Counters are kept as true counts; wherever the code
    computes on the 64-bit words, so does the model. */
module Claims {
  import opened Words

  type Thread = nat

  datatype Kind = Single | Bulk(max: nat)

  /** The next atomic access of a consumer, with the locals it still needs. Attempts are
      numbered in the order of their increments of `dequeueOptimisticCount`. */
  datatype Pc =
    | Idle
    | LoadTail(kind: Kind)
    | LoadOvercommit(kind: Kind, tail: nat)
    | LoadOptimistic(kind: Kind, tail: nat, over: nat)
    | Reserve(want: nat, over: nat)
    | ReloadTail(attempt: nat, count: nat, want: nat, over: nat)
    | Refund(attempt: nat, refund: nat, grant: nat, claims: bool)
    | Claim(attempt: nat, grant: nat)
  {
    predicate ClaimsNothing() { Claim? && grant == 0 }
  }

  /** One reservation: what it asked for, the overcommit it had loaded before, and what has
      been decided, refunded and taken for it so far. Auxiliary: no step reads it. */
  datatype Attempt = Attempt(owner: Thread, want: nat, over: nat, grant: nat, refunded: nat, taken: nat, open: bool)

  datatype Field = Want | Grant | Refunded | Taken | Outstanding

  datatype State = State(tail: nat, head: nat, optimistic: nat, overcommit: nat,
                         pc: map<Thread, Pc>, log: seq<Attempt>)

  datatype Event = Publish(count: nat) | CallDequeue(t: Thread, kind: Kind) | Step(t: Thread)

  const INIT := State(0, 0, 0, 0, map[], [])

  function PcOf(s: State, t: Thread): Pc { if t in s.pc then s.pc[t] else Idle }
  function Goto(s: State, t: Thread, p: Pc): State { s.(pc := s.pc[t := p]) }

  /** How many items a dequeue tries for, 0 meaning it gives up at once; `none` tells a
      bulk dequeue of at most 0 items, which goes on, from giving up. */
  function Wanted(kind: Kind, tail: int, optimistic: int, over: int): (int, bool) {
    match kind
    case Single => if CircularLess(Word(optimistic - over), Word(tail)) then (1, false) else (0, true)
    case Bulk(max) =>
      var desired := Word(tail - (optimistic - over));
      if CircularLess(0, desired) then (if desired < max then desired else max, false) else (0, true)
  }

  /** Whether the reservation at position `mine` finds anything once the tail is known, and
      how much of it is granted. */
  predicate Hits(tail: int, mine: int, over: int) {
    CircularLess(0, Word(tail - (mine - over)))
  }

  function Granted(want: nat, tail: int, mine: int, over: int): (g: nat)
    ensures g <= want
  {
    var actual := Word(tail - (mine - over));
    if !Hits(tail, mine, over) then 0 else if want < actual then want else actual
  }

  predicate Enabled(s: State, e: Event) {
    match e
    case Publish(_) => true
    case CallDequeue(t, _) => PcOf(s, t).Idle?
    case Step(t) => !PcOf(s, t).Idle? && (PcOf(s, t).ReloadTail? || PcOf(s, t).Refund? || PcOf(s, t).Claim? ==>
                                            PcOf(s, t).attempt < |s.log|)
  }

  function Do(s: State, e: Event): State
    requires Enabled(s, e)
  {
    match e
    case Publish(n) => s.(tail := s.tail + n)
    case CallDequeue(t, kind) => Goto(s, t, LoadTail(kind))
    case Step(t) =>
      match PcOf(s, t)
      case LoadTail(kind) => Goto(s, t, LoadOvercommit(kind, s.tail))
      case LoadOvercommit(kind, tail) => Goto(s, t, LoadOptimistic(kind, tail, s.overcommit))
      case LoadOptimistic(kind, tail, over) =>
        var (want, none) := Wanted(kind, tail, s.optimistic, over);
        Goto(s, t, if none then Idle else Reserve(want, over))
      case Reserve(want, over) =>
        Goto(s.(optimistic := s.optimistic + want,
                log := s.log + [Attempt(t, want, over, 0, 0, 0, true)]),
             t, ReloadTail(|s.log|, s.optimistic, want, over))
      case ReloadTail(k, mine, want, over) =>
        var g := Granted(want, s.tail, mine, over);
        Goto(s.(log := s.log[k := s.log[k].(grant := g)]), t,
             if !Hits(s.tail, mine, over) then Refund(k, want, 0, false)
             else if g < want then Refund(k, want - g, g, true)
             else Claim(k, g))
      case Refund(k, refund, g, claims) =>
        Goto(s.(overcommit := s.overcommit + refund,
                log := s.log[k := s.log[k].(refunded := refund, open := claims)]),
             t, if claims then Claim(k, g) else Idle)
      case Claim(k, g) =>
        Goto(s.(head := s.head + g, log := s.log[k := s.log[k].(taken := g, open := false)]), t, Idle)
  }

  /** The one assumption about word wrap-around: when an attempt compares its position with
      the tail, they are less than half the 64-bit range apart. */
  predicate InWindow(s: State, e: Event) {
    e.Step? && PcOf(s, e.t).ReloadTail? ==>
      -HALF <= s.tail - (PcOf(s, e.t).count - PcOf(s, e.t).over) < HALF
  }

  predicate CanDo(s: State, e: Event) { Enabled(s, e) && InWindow(s, e) }

  // ---------------------------------------------------------------------------
  // Invariant
  // ---------------------------------------------------------------------------

  function Get(a: Attempt, f: Field): nat {
    match f
    case Want => a.want
    case Grant => a.grant
    case Refunded => a.refunded
    case Taken => a.taken
    case Outstanding => if a.open then a.want else 0
  }

  function Sum(log: seq<Attempt>, f: Field): nat {
    if log == [] then 0 else Sum(log[..|log| - 1], f) + Get(log[|log| - 1], f)
  }

  ghost predicate AttemptInv(tail: nat, log: seq<Attempt>, k: nat)
    requires k < |log|
  {
    var a := log[k];
    && a.taken <= a.grant < HALF && a.grant + a.refunded <= a.want
    && a.over <= Sum(log[..k], Refunded)
    && (a.grant > 0 ==> Sum(log[..k], Want) - a.over + a.grant <= tail)
  }

  ghost predicate LogInv(tail: nat, log: seq<Attempt>) {
    forall k :: 0 <= k < |log| ==> AttemptInv(tail, log, k)
  }

  ghost predicate OwnerInv(s: State, k: nat)
    requires k < |s.log|
  {
    var a := s.log[k];
    if a.open then
      match PcOf(s, a.owner)
      case ReloadTail(j, _, _, _) => j == k
      case Refund(j, _, _, _) => j == k
      case Claim(j, _) => j == k
      case _ => false
    else a.taken == a.grant && a.refunded == a.want - a.grant
  }

  ghost predicate ThreadInv(s: State, t: Thread) {
    match PcOf(s, t)
    case LoadOptimistic(_, tail, over) => over <= s.overcommit && tail <= s.tail
    case LoadOvercommit(_, tail) => tail <= s.tail
    case Reserve(_, over) => over <= s.overcommit
    case ReloadTail(k, mine, want, over) =>
      && k < |s.log| && mine == Sum(s.log[..k], Want)
      && s.log[k] == Attempt(t, want, over, 0, 0, 0, true)
    case Refund(k, refund, g, claims) =>
      && k < |s.log| && refund == s.log[k].want - g && (!claims ==> g == 0)
      && s.log[k] == Attempt(t, s.log[k].want, s.log[k].over, g, 0, 0, true)
    case Claim(k, g) =>
      && k < |s.log| && g <= s.log[k].want
      && s.log[k] == Attempt(t, s.log[k].want, s.log[k].over, g, s.log[k].want - g, 0, true)
    case _ => true
  }

  ghost predicate Inv(s: State) {
    && Counters(s)
    && LogInv(s.tail, s.log)
    && (forall k :: 0 <= k < |s.log| ==> OwnerInv(s, k))
    && (forall t: Thread :: ThreadInv(s, t))
  }

  // ---------------------------------------------------------------------------
  // Sums over the attempts
  // ---------------------------------------------------------------------------

  lemma SumAppend(log: seq<Attempt>, a: Attempt, f: Field)
    ensures Sum(log + [a], f) == Sum(log, f) + Get(a, f)
  {
    assert (log + [a])[..|log|] == log;
  }

  lemma {:induction false} SumUpdate(log: seq<Attempt>, k: nat, a: Attempt, f: Field)
    requires k < |log|
    ensures Sum(log[k := a], f) == Sum(log, f) + Get(a, f) - Get(log[k], f)
  {
    var n := |log| - 1;
    if k == n {
      assert log[k := a][..n] == log[..n];
    } else {
      assert log[k := a][..n] == log[..n][k := a];
      SumUpdate(log[..n], k, a, f);
    }
  }

  /** Prefix sums after an update. */
  lemma PrefixUpdate(log: seq<Attempt>, k: nat, a: Attempt, j: nat, f: Field)
    requires k < |log| && j <= |log|
    ensures Sum(log[k := a][..j], f) == Sum(log[..j], f) + if k < j then Get(a, f) - Get(log[k], f) else 0
  {
    if k < j {
      assert log[k := a][..j] == log[..j][k := a];
      SumUpdate(log[..j], k, a, f);
    } else {
      assert log[k := a][..j] == log[..j];
    }
  }

  lemma {:induction false} GrantsAndRefundsWithinWants(tail: nat, log: seq<Attempt>, j: nat)
    requires LogInv(tail, log) && j <= |log|
    ensures Sum(log[..j], Grant) + Sum(log[..j], Refunded) <= Sum(log[..j], Want)
    ensures Sum(log[..j], Taken) <= Sum(log[..j], Grant)
  {
    if j == 0 {
    } else {
      GrantsAndRefundsWithinWants(tail, log, j - 1);
      assert AttemptInv(tail, log, j - 1);
      assert log[..j][..j - 1] == log[..j - 1];
    }
  }

  /** The heart of the protocol: whatever has been granted in total lies below the tail. The
      granted attempt with the highest position decides: what was granted before it is at
      most its position less the refunds it knew of. */
  lemma {:induction false} GrantsBelowTail(tail: nat, log: seq<Attempt>, j: nat)
    requires LogInv(tail, log) && j <= |log|
    ensures Sum(log[..j], Grant) <= tail
  {
    if j == 0 {
    } else {
      assert AttemptInv(tail, log, j - 1);
      assert log[..j][..j - 1] == log[..j - 1];
      if log[j - 1].grant == 0 {
        GrantsBelowTail(tail, log, j - 1);
      } else {
        GrantsAndRefundsWithinWants(tail, log, j - 1);
      }
    }
  }

  /** An open attempt's grant still lies ahead of the head. */
  lemma {:induction false} TakenPlusOpenGrant(tail: nat, log: seq<Attempt>, k: nat, j: nat)
    requires LogInv(tail, log) && k < j <= |log|
    ensures Sum(log[..j], Taken) + log[k].grant - log[k].taken <= Sum(log[..j], Grant)
  {
    assert AttemptInv(tail, log, j - 1);
    assert log[..j][..j - 1] == log[..j - 1];
    if k == j - 1 {
      GrantsAndRefundsWithinWants(tail, log, j - 1);
    } else {
      TakenPlusOpenGrant(tail, log, k, j - 1);
    }
  }

  // ---------------------------------------------------------------------------
  // Preservation
  // ---------------------------------------------------------------------------

  lemma LogInvAfterUpdate(tail: nat, log: seq<Attempt>, k: nat, a: Attempt)
    requires k < |log| && LogInv(tail, log)
    requires a.want == log[k].want && a.over == log[k].over
    requires a.refunded >= log[k].refunded && a.taken <= a.grant < HALF && a.grant + a.refunded <= a.want
    requires a.grant == log[k].grant || Sum(log[..k], Want) - a.over + a.grant <= tail
    ensures LogInv(tail, log[k := a])
  {
    var log' := log[k := a];
    forall j | 0 <= j < |log'| ensures AttemptInv(tail, log', j) {
      assert AttemptInv(tail, log, j);
      PrefixUpdate(log, k, a, j, Refunded);
      PrefixUpdate(log, k, a, j, Want);
    }
  }

  lemma UpdateKeepsInv(s: State, s': State, t: Thread, k: nat)
    requires Inv(s) && k < |s.log| && s.log[k].owner == t && s.log[k].open
    requires |s'.log| == |s.log| && s'.log == s.log[k := s'.log[k]] && s'.pc == s.pc[t := PcOf(s', t)]
    requires s'.tail == s.tail && s'.overcommit >= s.overcommit
    requires s'.log[k].want == s.log[k].want && s'.log[k].owner == t
    ensures forall j :: 0 <= j < |s.log| && j != k ==> OwnerInv(s', j)
    ensures forall u: Thread :: u != t ==> ThreadInv(s', u)
  {
    assert OwnerInv(s, k);
    forall j | 0 <= j < |s.log| && j != k ensures OwnerInv(s', j) {
      assert OwnerInv(s, j);
    }
    forall u: Thread | u != t ensures ThreadInv(s', u) {
      assert ThreadInv(s, u);
      if PcOf(s, u).ReloadTail? {
        PrefixUpdate(s.log, k, s'.log[k], PcOf(s, u).attempt, Want);
      }
    }
  }

  lemma LogInvAfterAppend(tail: nat, log: seq<Attempt>, a: Attempt)
    requires LogInv(tail, log) && a.grant == a.refunded == a.taken == 0 && a.over <= Sum(log, Refunded)
    ensures LogInv(tail, log + [a])
  {
    var log' := log + [a];
    forall j | 0 <= j < |log'| ensures AttemptInv(tail, log', j) {
      assert log'[..j] == log[..j];
      if j < |log| { assert AttemptInv(tail, log, j); } else { assert log[..j] == log; }
    }
  }

  lemma ReserveKeepsOwners(s: State, t: Thread)
    requires Inv(s) && PcOf(s, t).Reserve?
    ensures var s' := Do(s, Step(t)); forall j :: 0 <= j < |s'.log| ==> OwnerInv(s', j)
  {
    var s' := Do(s, Step(t));
    forall j | 0 <= j < |s'.log| ensures OwnerInv(s', j) {
      if j < |s.log| { assert s'.log[j] == s.log[j] && OwnerInv(s, j); }
    }
  }

  lemma ReserveKeepsThread(s: State, t: Thread, u: Thread)
    requires Inv(s) && PcOf(s, t).Reserve?
    ensures ThreadInv(Do(s, Step(t)), u)
  {
    var s' := Do(s, Step(t));
    assert ThreadInv(s, t) && ThreadInv(s, u);
    if u == t {
      assert s'.log[..|s.log|] == s.log;
    } else if PcOf(s, u).ReloadTail? {
      assert s'.log[..PcOf(s, u).attempt] == s.log[..PcOf(s, u).attempt];
    }
  }

  ghost predicate Counters(s: State) {
    s.optimistic == Sum(s.log, Want) && s.overcommit == Sum(s.log, Refunded) && s.head == Sum(s.log, Taken)
  }

  lemma ReserveKeepsCounters(s: State, t: Thread)
    requires Counters(s) && PcOf(s, t).Reserve?
    ensures Counters(Do(s, Step(t)))
  {
    var a := Attempt(t, PcOf(s, t).want, PcOf(s, t).over, 0, 0, 0, true);
    SumAppend(s.log, a, Want);
    SumAppend(s.log, a, Refunded);
    SumAppend(s.log, a, Taken);
  }

  lemma ReserveKeepsLog(s: State, t: Thread)
    requires Counters(s) && ThreadInv(s, t) && LogInv(s.tail, s.log) && PcOf(s, t).Reserve?
    ensures var s' := Do(s, Step(t)); LogInv(s'.tail, s'.log)
  {
    LogInvAfterAppend(s.tail, s.log, Attempt(t, PcOf(s, t).want, PcOf(s, t).over, 0, 0, 0, true));
  }

  lemma ReserveKeepsInv(s: State, t: Thread)
    requires Inv(s) && PcOf(s, t).Reserve?
    ensures Inv(Do(s, Step(t)))
  {
    assert ThreadInv(s, t);
    ReserveKeepsCounters(s, t);
    ReserveKeepsLog(s, t);
    ReserveKeepsOwners(s, t);
    forall u: Thread ensures ThreadInv(Do(s, Step(t)), u) {
      ReserveKeepsThread(s, t, u);
    }
  }

  /** In the window, a grant reaches no further than the tail. */
  lemma GrantedFits(want: nat, tail: int, mine: int, over: int)
    requires -HALF <= tail - (mine - over) < HALF
    ensures Granted(want, tail, mine, over) < HALF
    ensures Granted(want, tail, mine, over) > 0 ==> mine - over + Granted(want, tail, mine, over) <= tail
    ensures !Hits(tail, mine, over) ==> Granted(want, tail, mine, over) == 0
  {
    CircularLessIsLess(0, tail - (mine - over));
  }

  lemma ReloadKeepsInv(s: State, t: Thread)
    requires Inv(s) && CanDo(s, Step(t)) && PcOf(s, t).ReloadTail?
    ensures Inv(Do(s, Step(t)))
  {
    var s', p := Do(s, Step(t)), PcOf(s, t);
    var k, a := p.attempt, s'.log[p.attempt];
    assert ThreadInv(s, t) && AttemptInv(s.tail, s.log, k);
    SumUpdate(s.log, k, a, Want);
    SumUpdate(s.log, k, a, Refunded);
    SumUpdate(s.log, k, a, Taken);
    GrantedFits(p.want, s.tail, p.count, p.over);
    LogInvAfterUpdate(s.tail, s.log, k, a);
    UpdateKeepsInv(s, s', t, k);
  }

  lemma RefundKeepsInv(s: State, t: Thread)
    requires Inv(s) && CanDo(s, Step(t)) && PcOf(s, t).Refund?
    ensures Inv(Do(s, Step(t)))
  {
    var s', p := Do(s, Step(t)), PcOf(s, t);
    var k, a := p.attempt, s'.log[p.attempt];
    assert ThreadInv(s, t) && AttemptInv(s.tail, s.log, k);
    SumUpdate(s.log, k, a, Want);
    SumUpdate(s.log, k, a, Refunded);
    SumUpdate(s.log, k, a, Taken);
    LogInvAfterUpdate(s.tail, s.log, k, a);
    UpdateKeepsInv(s, s', t, k);
  }

  lemma ClaimKeepsInv(s: State, t: Thread)
    requires Inv(s) && CanDo(s, Step(t)) && PcOf(s, t).Claim?
    ensures Inv(Do(s, Step(t)))
  {
    var s', p := Do(s, Step(t)), PcOf(s, t);
    var k, a := p.attempt, s'.log[p.attempt];
    assert ThreadInv(s, t) && AttemptInv(s.tail, s.log, k);
    SumUpdate(s.log, k, a, Want);
    SumUpdate(s.log, k, a, Refunded);
    SumUpdate(s.log, k, a, Taken);
    LogInvAfterUpdate(s.tail, s.log, k, a);
    UpdateKeepsInv(s, s', t, k);
  }

  lemma LocalStepKeepsInv(s: State, e: Event)
    requires Inv(s) && CanDo(s, e)
    requires e.Step? ==> PcOf(s, e.t).LoadTail? || PcOf(s, e.t).LoadOvercommit? || PcOf(s, e.t).LoadOptimistic?
    ensures Inv(Do(s, e))
  {
    var s' := Do(s, e);
    forall j | 0 <= j < |s'.log| ensures AttemptInv(s'.tail, s'.log, j) && OwnerInv(s', j) {
      assert AttemptInv(s.tail, s.log, j) && OwnerInv(s, j);
    }
    forall u: Thread ensures ThreadInv(s', u) {
      assert ThreadInv(s, u);
    }
  }

  /** Every atomic access of producer and consumers keeps the invariant. */
  lemma InvKept(s: State, e: Event)
    requires Inv(s) && CanDo(s, e)
    ensures Inv(Do(s, e))
  {
    if e.Step? && PcOf(s, e.t).Reserve? { ReserveKeepsInv(s, e.t); }
    else if e.Step? && PcOf(s, e.t).ReloadTail? { ReloadKeepsInv(s, e.t); }
    else if e.Step? && PcOf(s, e.t).Refund? { RefundKeepsInv(s, e.t); }
    else if e.Step? && PcOf(s, e.t).Claim? { ClaimKeepsInv(s, e.t); }
    else { LocalStepKeepsInv(s, e); }
  }

  // ---------------------------------------------------------------------------
  // What the protocol guarantees
  // ---------------------------------------------------------------------------

  /** Every range handed out by `headIndex.fetch_add` lies below the published tail. */
  lemma ClaimedRangeIsPublished(s: State, t: Thread)
    requires Inv(s) && PcOf(s, t).Claim?
    ensures s.head + PcOf(s, t).grant <= s.tail
    ensures PcOf(s, t).grant < HALF
  {
    var k, n := PcOf(s, t).attempt, |s.log|;
    assert ThreadInv(s, t);
    assert s.log[..n] == s.log;
    TakenPlusOpenGrant(s.tail, s.log, k, n);
    GrantsBelowTail(s.tail, s.log, n);
    assert AttemptInv(s.tail, s.log, k);
  }

  /** Granted items, taken or about to be, never exceed the tail. */
  lemma GrantsNeverExceedTail(s: State)
    requires Inv(s)
    ensures s.head <= Sum(s.log, Grant) <= s.tail
    ensures s.overcommit <= s.optimistic
  {
    assert s.log[..|s.log|] == s.log;
    GrantsBelowTail(s.tail, s.log, |s.log|);
    GrantsAndRefundsWithinWants(s.tail, s.log, |s.log|);
  }

  /** The assertion in `dequeue` and `dequeue_bulk`: the overcommit loaded before never
      exceeds the position reserved. */
  lemma LoadedOvercommitAtMostPosition(s: State, t: Thread)
    requires Inv(s) && PcOf(s, t).ReloadTail?
    ensures PcOf(s, t).over <= PcOf(s, t).count
  {
    var k := PcOf(s, t).attempt;
    assert ThreadInv(s, t) && AttemptInv(s.tail, s.log, k);
    GrantsAndRefundsWithinWants(s.tail, s.log, k);
  }

  ghost predicate Quiescent(s: State) { forall t: Thread :: PcOf(s, t).Idle? }

  lemma {:induction false} SettledSums(s: State, j: nat)
    requires Inv(s) && Quiescent(s) && j <= |s.log|
    ensures Sum(s.log[..j], Want) == Sum(s.log[..j], Refunded) + Sum(s.log[..j], Taken)
  {
    if j == 0 {
    } else {
      SettledSums(s, j - 1);
      assert AttemptInv(s.tail, s.log, j - 1) && OwnerInv(s, j - 1);
      assert s.log[..j][..j - 1] == s.log[..j - 1];
    }
  }

  /** With no dequeue in flight the counters agree with the head again. */
  lemma QuiescentCountersAgree(s: State)
    requires Inv(s) && Quiescent(s)
    ensures s.optimistic - s.overcommit == s.head <= s.tail
  {
    assert s.log[..|s.log|] == s.log;
    SettledSums(s, |s.log|);
    GrantsNeverExceedTail(s);
  }

  /** The single dequeue's tests are the bulk dequeue's tests for one item. */
  lemma SingleIsBulkOfOne(tail: int, optimistic: int, over: int)
    ensures Wanted(Single, tail, optimistic, over) == Wanted(Bulk(1), tail, optimistic, over)
    ensures Hits(tail, optimistic, over) <==> CircularLess(Word(optimistic - over), Word(tail))
  {
    CircularLessIsLess(optimistic - over, tail);
    CircularLessIsLess(0, Word(tail - (optimistic - over)));
    WordOfDifference(tail - (optimistic - over), 0);
  }

  function Run(s: State, t: Thread, steps: nat): State
    decreases steps
  {
    if steps == 0 then s
    else
      var r := Run(s, t, steps - 1);
      if Enabled(r, Step(t)) then Do(r, Step(t)) else r
  }

  /** What the tests compute when `there` items lie between position and tail. */
  lemma TestsBelowHalfRange(kind: Kind, tail: int, optimistic: int, over: int, there: int, want: nat)
    requires there == tail - (optimistic - over) && 0 < there < HALF
    ensures Wanted(kind, tail, optimistic, over) ==
            (var max := if kind.Bulk? then kind.max else 1; if max < there then max else there, false)
    ensures Hits(tail, optimistic, over)
    ensures Granted(want, tail, optimistic, over) == if want < there then want else there
  {
    assert Word(there) == there;
    CircularLessIsLess(0, there);
    CircularLessIsLess(optimistic - over, tail);
  }

  lemma SoloLoads(s: State, t: Thread, kind: Kind)
    requires PcOf(s, t).Idle?
    ensures Run(Do(s, CallDequeue(t, kind)), t, 2) == s.(pc := s.pc[t := LoadOptimistic(kind, s.tail, s.overcommit)])
  {
    var s0 := Do(s, CallDequeue(t, kind));
    var s1 := Do(s0, Step(t));
    assert Run(s0, t, 1) == s1 && s1 == s.(pc := s.pc[t := LoadOvercommit(kind, s.tail)]);
  }

  /** A lone dequeue up to its reservation, if it comes to one. */
  lemma SoloReservation(s: State, t: Thread, kind: Kind)
    requires Inv(s) && Quiescent(s) && s.head <= s.tail < s.head + HALF
    ensures var max := if kind.Bulk? then kind.max else 1;
            var want := if max < s.tail - s.head then max else s.tail - s.head;
            var s' := Run(Do(s, CallDequeue(t, kind)), t, 4);
            && s'.head == s.head && s'.tail == s.tail && s'.overcommit == s.overcommit
            && if s.tail == s.head then s'.pc == s.pc[t := Idle]
               else |s'.log| == |s.log| + 1 && s'.pc == s.pc[t := ReloadTail(|s.log|, s.optimistic, want, s.overcommit)]
  {
    QuiescentCountersAgree(s);
    SoloLoads(s, t, kind);
    var s0 := Do(s, CallDequeue(t, kind));
    var s3 := Do(Run(s0, t, 2), Step(t));
    if s.tail == s.head {
      TestsFindNothing(kind, s.tail, s.optimistic, s.overcommit);
      assert Run(s0, t, 3) == s3 && s3 == s.(pc := s.pc[t := Idle]);
      assert Run(s0, t, 4) == s3;
    } else {
      TestsBelowHalfRange(kind, s.tail, s.optimistic, s.overcommit, s.tail - s.head, 0);
      assert Run(s0, t, 3) == s3 && s3.pc[t].Reserve? && s3 == s.(pc := s.pc[t := s3.pc[t]]);
      assert Run(s0, t, 4) == Do(s3, Step(t));
    }
  }

  /** And what they compute when the position is at the tail or past it. */
  lemma TestsFindNothing(kind: Kind, tail: int, optimistic: int, over: int)
    requires -HALF <= tail - (optimistic - over) <= 0
    ensures Wanted(kind, tail, optimistic, over) == (0, true) && !Hits(tail, optimistic, over)
  {
    var there := tail - (optimistic - over);
    CircularLessIsLess(optimistic - over, tail);
    CircularLessIsLess(0, there);
    WordOfDifference(0, there);
    assert Word(0) == 0;
  }

  /** No item is stranded: from a state with no dequeue in flight, a dequeue that runs
      alone takes exactly as many items as it asks for and the queue holds. */
  lemma SoloDequeueTakesWhatIsThere(s: State, t: Thread, kind: Kind)
    requires Inv(s) && Quiescent(s) && s.tail < s.head + HALF
    ensures var max := if kind.Bulk? then kind.max else 1;
            var s' := Run(Do(s, CallDequeue(t, kind)), t, 6);
            && s'.head == s.head + (if max < s.tail - s.head then max else s.tail - s.head)
            && s'.tail == s.tail && s'.overcommit == s.overcommit && Quiescent(s')
  {
    QuiescentCountersAgree(s);
    SoloReservation(s, t, kind);
    var s0 := Do(s, CallDequeue(t, kind));
    var s4 := Run(s0, t, 4);
    var s6 := Run(s0, t, 6);
    if s.tail == s.head {
      assert Run(s0, t, 5) == s4 && s6 == s4;
    } else {
      var max := if kind.Bulk? then kind.max else 1;
      var want := if max < s.tail - s.head then max else s.tail - s.head;
      TestsBelowHalfRange(kind, s.tail, s.optimistic, s.overcommit, s.tail - s.head, want);
      var s5 := Do(s4, Step(t));
      assert Run(s0, t, 5) == s5 && PcOf(s5, t).Claim?;
      assert s6 == Do(s5, Step(t));
    }
    forall u: Thread ensures PcOf(s6, u).Idle? {
      assert PcOf(s, u).Idle?;
    }
  }

  // ---------------------------------------------------------------------------
  // Whole runs
  // ---------------------------------------------------------------------------

  ghost predicate IsRun(states: seq<State>, events: seq<Event>) {
    && |states| == |events| + 1 && states[0] == INIT
    && forall i :: 0 <= i < |events| ==> CanDo(states[i], events[i]) && states[i + 1] == Do(states[i], events[i])
  }

  lemma {:induction false} EveryReachableStateIsSound(states: seq<State>, events: seq<Event>, i: nat)
    requires IsRun(states, events) && i < |states|
    ensures Inv(states[i])
  {
    if i == 0 {
    } else {
      EveryReachableStateIsSound(states, events, i - 1);
      InvKept(states[i - 1], events[i - 1]);
    }
  }

  /** The i-th step of a run claims index x. */
  ghost predicate ClaimsIndex(states: seq<State>, events: seq<Event>, i: nat, x: nat)
    requires IsRun(states, events) && i < |events|
  {
    events[i].Step? && PcOf(states[i], events[i].t).Claim? &&
    states[i].head <= x < states[i].head + PcOf(states[i], events[i].t).grant
  }

  lemma {:induction false} HeadNeverFalls(states: seq<State>, events: seq<Event>, i: nat, j: nat)
    requires IsRun(states, events) && i <= j < |states|
    ensures states[i].head <= states[j].head
  {
    if i == j {
    } else {
      HeadNeverFalls(states, events, i, j - 1);
    }
  }

  /** In every run, claimed ranges are disjoint and contiguous: each index below the head has
      been claimed by exactly one step, and it was published before it was claimed. */
  lemma {:induction false} EachIndexClaimedOnce(states: seq<State>, events: seq<Event>, n: nat, x: nat)
    requires IsRun(states, events) && n < |states|
    ensures x < states[n].head ==> exists i :: 0 <= i < n && ClaimsIndex(states, events, i, x)
    ensures forall i, j :: 0 <= i < n && 0 <= j < n && ClaimsIndex(states, events, i, x) && ClaimsIndex(states, events, j, x) ==> i == j
    ensures forall i :: 0 <= i < n && ClaimsIndex(states, events, i, x) ==> x < states[i].tail && x < states[n].head
  {
    if n == 0 {
    } else {
      EachIndexClaimedOnce(states, events, n - 1, x);
      if events[n - 1].Step? && PcOf(states[n - 1], events[n - 1].t).Claim? {
        EveryReachableStateIsSound(states, events, n - 1);
        ClaimedRangeIsPublished(states[n - 1], events[n - 1].t);
      }
      if states[n - 1].head <= x < states[n].head {
        assert ClaimsIndex(states, events, n - 1, x);
      }
    }
  }

  // ---------------------------------------------------------------------------
  // When the window assumption holds
  // ---------------------------------------------------------------------------

  /** A run as the code makes it, whatever the words do. */
  ghost predicate IsTrace(states: seq<State>, events: seq<Event>) {
    && |states| == |events| + 1 && states[0] == INIT
    && forall i :: 0 <= i < |events| ==> Enabled(states[i], events[i]) && states[i + 1] == Do(states[i], events[i])
  }

  /** Between loading the overcommit and reloading the tail. */
  predicate Looking(p: Pc) { p.LoadOptimistic? || p.Reserve? || p.ReloadTail? }

  /** Steps i and j are the first and the last look of one dequeue of t at the counters. */
  ghost predicate OneDequeue(states: seq<State>, events: seq<Event>, i: nat, j: nat, t: Thread) {
    && i < j < |events| <= |states| && events[i] == events[j] == Step(t)
    && PcOf(states[i], t).LoadOvercommit? && PcOf(states[j], t).ReloadTail?
    && forall m :: i < m <= j ==> Looking(PcOf(states[m], t))
  }

  /** From s to s', fewer than 2^63 items were in the queue or came in, and what the dequeues
      open in s or begun since are after is at most 2^63 items. */
  predicate HasRoom(s: State, s': State) {
    s'.tail - s.head < HALF && Sum(s.log, Outstanding) + s'.optimistic - s.optimistic <= HALF
  }

  /** No dequeue sleeps through 2^63 items. */
  ghost predicate Moderate(states: seq<State>, events: seq<Event>) {
    forall i: nat, j: nat, t: Thread :: OneDequeue(states, events, i, j, t) ==> HasRoom(states[i], states[j])
  }

  /** What a dequeue works with was loaded earlier in the same call. */
  lemma {:induction false} LoadedEarlier(states: seq<State>, events: seq<Event>, j: nat, t: Thread) returns (i: nat)
    requires IsTrace(states, events) && j < |states| && Looking(PcOf(states[j], t))
    ensures i < j && events[i] == Step(t) && PcOf(states[i], t).LoadOvercommit?
    ensures forall m :: i < m <= j ==> Looking(PcOf(states[m], t))
    ensures PcOf(states[j], t).over == states[i].overcommit
    ensures states[i].tail <= states[j].tail && states[i].optimistic <= states[j].optimistic
    ensures PcOf(states[j], t).ReloadTail? ==> states[i].optimistic <= PcOf(states[j], t).count <= states[j].optimistic
  {
    var s, e := states[j - 1], events[j - 1];
    assert states[j] == Do(s, e);
    if e == Step(t) && PcOf(s, t).LoadOvercommit? {
      i := j - 1;
    } else {
      i := LoadedEarlier(states, events, j - 1, t);
    }
  }

  /** The position a new attempt would get: at least the head, and ahead of it by no more than
      the open attempts are after. */
  lemma EffectivePosition(s: State)
    requires Inv(s)
    ensures s.head <= s.optimistic - s.overcommit <= s.head + Sum(s.log, Outstanding)
  {
    assert s.log[..|s.log|] == s.log;
    OpenOrSettled(s, |s.log|);
  }

  lemma {:induction false} OpenOrSettled(s: State, j: nat)
    requires Inv(s) && j <= |s.log|
    ensures var log := s.log[..j];
            Sum(log, Taken) <= Sum(log, Want) - Sum(log, Refunded) <= Sum(log, Taken) + Sum(log, Outstanding)
  {
    if j == 0 {
    } else {
      OpenOrSettled(s, j - 1);
      assert AttemptInv(s.tail, s.log, j - 1) && OwnerInv(s, j - 1);
      assert s.log[..j][..j - 1] == s.log[..j - 1];
    }
  }

  lemma {:induction false} SoundUpTo(states: seq<State>, events: seq<Event>, n: nat)
    requires IsTrace(states, events) && Moderate(states, events) && n < |states|
    ensures Inv(states[n]) && forall i :: 0 <= i < n ==> CanDo(states[i], events[i])
  {
    if n == 0 {
    } else {
      SoundUpTo(states, events, n - 1);
      var s, e := states[n - 1], events[n - 1];
      if e.Step? && PcOf(s, e.t).ReloadTail? {
        var i := LoadedEarlier(states, events, n - 1, e.t);
        SoundUpTo(states, events, i);
        EffectivePosition(states[i]);
        GrantsNeverExceedTail(states[i]);
        assert OneDequeue(states, events, i, n - 1, e.t);
      }
      InvKept(s, e);
    }
  }

  /** The window assumption holds of every step when no dequeue sleeps through 2^63 items: a
      condition on the traffic, not on what the dequeues compute. */
  lemma ModerateTrafficStaysInWindow(states: seq<State>, events: seq<Event>)
    requires IsTrace(states, events) && Moderate(states, events)
    ensures IsRun(states, events)
  {
    SoundUpTo(states, events, |events|);
  }

  // ---------------------------------------------------------------------------
  // Claims of nothing
  // ---------------------------------------------------------------------------

  /** No bulk dequeue asks for 0 items. */
  predicate AsksForItems(e: Event) { e.CallDequeue? ==> e.kind != Bulk(0) }

  /** A dequeue that is after some items. */
  predicate AfterItems(p: Pc) {
    match p
    case LoadTail(kind) => kind != Bulk(0)
    case LoadOvercommit(kind, _) => kind != Bulk(0)
    case LoadOptimistic(kind, _, _) => kind != Bulk(0)
    case Reserve(want, _) => want > 0
    case ReloadTail(_, _, want, _) => want > 0
    case Refund(_, _, g, claims) => claims ==> g > 0
    case Claim(_, g) => g > 0
    case Idle => true
  }

  lemma AfterItemsKept(s: State, e: Event, t: Thread)
    requires Enabled(s, e) && AsksForItems(e) && AfterItems(PcOf(s, t))
    ensures AfterItems(PcOf(Do(s, e), t))
  {
  }

  /** Only a bulk dequeue asked for 0 items ever claims nothing. */
  lemma {:induction false} OnlyZeroClaimsNothing(states: seq<State>, events: seq<Event>, n: nat, t: Thread)
    requires IsTrace(states, events) && n < |states| && forall e :: e in events ==> AsksForItems(e)
    ensures AfterItems(PcOf(states[n], t)) && !PcOf(states[n], t).ClaimsNothing()
  {
    if n == 0 {
    } else {
      OnlyZeroClaimsNothing(states, events, n - 1, t);
      assert events[n - 1] in events;
      AfterItemsKept(states[n - 1], events[n - 1], t);
    }
  }

  // ---------------------------------------------------------------------------
  // One call
  // ---------------------------------------------------------------------------

  function Asked(kind: Kind): nat { if kind.Bulk? then kind.max else 1 }

  /** A dequeue that was asked for `kind`. */
  predicate ServesCall(p: Pc, kind: Kind) {
    match p
    case Idle => true
    case LoadTail(k) => k == kind
    case LoadOvercommit(k, _) => k == kind
    case LoadOptimistic(k, _, _) => k == kind
    case Reserve(want, _) => want <= Asked(kind)
    case ReloadTail(_, _, want, _) => want <= Asked(kind)
    case Refund(_, _, g, _) => g <= Asked(kind)
    case Claim(_, g) => g <= Asked(kind)
  }

  lemma StepServesCall(s: State, e: Event, t: Thread, kind: Kind)
    requires Enabled(s, e) && !PcOf(s, t).Idle? && ServesCall(PcOf(s, t), kind)
    ensures ServesCall(PcOf(Do(s, e), t), kind)
  {
  }

  /** Thread t is inside the call that event i began. */
  ghost predicate Inside(states: seq<State>, events: seq<Event>, i: nat, j: nat, t: Thread) {
    && i < j < |states| && i < |events| && events[i].CallDequeue? && events[i].t == t
    && forall k :: i < k <= j ==> !PcOf(states[k], t).Idle?
  }

  lemma {:induction false} CallIsServed(states: seq<State>, events: seq<Event>, i: nat, j: nat, t: Thread)
    requires IsTrace(states, events) && Inside(states, events, i, j, t)
    ensures ServesCall(PcOf(states[j], t), events[i].kind)
    decreases j
  {
    hide Do, Enabled, ServesCall;
    if j == i + 1 {
      CallBegins(states[i], t, events[i].kind);
    } else {
      CallIsServed(states, events, i, j - 1, t);
      StepServesCall(states[j - 1], events[j - 1], t, events[i].kind);
    }
  }

  lemma CallBegins(s: State, t: Thread, kind: Kind)
    requires Enabled(s, CallDequeue(t, kind))
    ensures ServesCall(PcOf(Do(s, CallDequeue(t, kind)), t), kind)
  {
  }

  /** No dequeue takes more than its own caller asked for. */
  lemma TakesAtMostAsked(states: seq<State>, events: seq<Event>, i: nat, j: nat, t: Thread)
    requires IsTrace(states, events) && Inside(states, events, i, j, t) && j < |events| && events[j] == Step(t)
    ensures states[j].head <= states[j + 1].head <= states[j].head + Asked(events[i].kind)
  {
    CallIsServed(states, events, i, j, t);
    assert Enabled(states[j], events[j]);
  }

  function StepsLeft(p: Pc): nat {
    match p
    case Idle => 0
    case LoadTail(_) => 7
    case LoadOvercommit(_, _) => 6
    case LoadOptimistic(_, _, _) => 5
    case Reserve(_, _) => 4
    case ReloadTail(_, _, _, _) => 3
    case Refund(_, _, _, _) => 2
    case Claim(_, _) => 1
  }

  /** Every step of a dequeue brings it nearer to its claim or its end, and no other step takes it
      back: it is through after at most seven. */
  lemma DequeueGoesOn(s: State, e: Event, t: Thread)
    requires Enabled(s, e) && !PcOf(s, t).Idle?
    ensures if e == Step(t) then StepsLeft(PcOf(Do(s, e), t)) < StepsLeft(PcOf(s, t)) else PcOf(Do(s, e), t) == PcOf(s, t)
  {
  }
}
