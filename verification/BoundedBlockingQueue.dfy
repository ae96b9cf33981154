/** `BoundedBlockingQueue`: any number of threads put and take, waiting on two condition
    variables that are notified one thread at a time. A stretch under the mutex is one step;
    threads may barge in before a signalled one, and wake up for no reason. */
module BoundedBlockingQueue {
  import opened Condition

  type Item = int

  datatype Op = Put(item: Item) | Take

  /** `calls`: the threads inside `put` or `take`. Auxiliary: all items put and taken. */
  datatype State = State(capacity: nat, queue: seq<Item>, notEmpty: Condition, notFull: Condition,
                         calls: map<Thread, Op>, puts: seq<Item>, takes: seq<Item>)

  function Init(capacity: nat): State { State(capacity, [], NOBODY, NOBODY, map[], [], []) }

  /** `Enter`: the thread gets the mutex, at the start of its call or after a wait; `choice` is
      whom its notification wakes, if anybody waits. */
  datatype Event = Call(t: Thread, op: Op) | Enter(t: Thread, choice: Thread) | WakeUp(t: Thread)

  /** The condition an operation notifies. */
  function Notifies(s: State, op: Op): Condition { if op.Put? then s.notEmpty else s.notFull }

  predicate Asleep(s: State, t: Thread) { Waits(s.notEmpty, t) || Waits(s.notFull, t) }

  predicate Enabled(s: State, e: Event) {
    match e
    case Call(t, _) => t !in s.calls
    case Enter(t, choice) => t in s.calls && !Asleep(s, t) && CanChoose(Notifies(s, s.calls[t]), choice)
    case WakeUp(t) => t in s.calls && Asleep(s, t)
  }

  function Do(s: State, e: Event): State
    requires Enabled(s, e)
  {
    match e
    case Call(t, op) => s.(calls := s.calls[t := op])
    case WakeUp(t) => s.(notEmpty := Spurious(s.notEmpty, t), notFull := Spurious(s.notFull, t))
    case Enter(t, choice) =>
      match s.calls[t]
      case Put(item) => AfterPut(s, t, item, choice)
      case Take => AfterTake(s, t, choice)
  }

  function AfterPut(s: State, t: Thread, item: Item, choice: Thread): State {
    if |s.queue| >= s.capacity then s.(notFull := Wait(Back(s.notFull, t), t))
    else s.(notFull := Back(s.notFull, t), queue := s.queue + [item], notEmpty := Notify(s.notEmpty, choice),
            calls := s.calls - {t}, puts := s.puts + [item])
  }

  function AfterTake(s: State, t: Thread, choice: Thread): State {
    if s.queue == [] then s.(notEmpty := Wait(Back(s.notEmpty, t), t))
    else s.(notEmpty := Back(s.notEmpty, t), queue := s.queue[1..], notFull := Notify(s.notFull, choice),
            calls := s.calls - {t}, takes := s.takes + [s.queue[0]])
  }

  /** Who waits on a condition is in a call that waits for it. */
  ghost predicate WaitersInv(s: State) {
    && (forall t :: InWait(s.notEmpty, t) ==> t in s.calls && s.calls[t].Take?)
    && (forall t :: InWait(s.notFull, t) ==> t in s.calls && s.calls[t].Put?)
  }

  ghost predicate Inv(s: State) {
    && |s.queue| <= s.capacity && s.puts == s.takes + s.queue
    && Valid(s.notEmpty) && Valid(s.notFull) && WaitersInv(s)
    && Covered(s.notEmpty, |s.queue|) && Covered(s.notFull, s.capacity - |s.queue|)
  }

  /** Waiters stay accounted for when t waits again or leaves. */
  lemma WaitersKept(s: State, t: Thread, choice: Thread)
    requires WaitersInv(s) && t in s.calls && !Asleep(s, t) && CanChoose(Notifies(s, s.calls[t]), choice)
    ensures match s.calls[t]
            case Put(item) => WaitersInv(AfterPut(s, t, item, choice))
            case Take => WaitersInv(AfterTake(s, t, choice))
  {
  }

  lemma PutKeepsInv(s: State, t: Thread, item: Item, choice: Thread)
    requires Inv(s) && t in s.calls && s.calls[t] == Put(item) && !Asleep(s, t) && CanChoose(s.notEmpty, choice)
    ensures Inv(AfterPut(s, t, item, choice))
  {
    WaitersKept(s, t, choice);
    if |s.queue| >= s.capacity {
      WaitingCovers(s.notFull, t, s.capacity - |s.queue|);
    } else {
      TakingCovers(s.notFull, t, s.capacity - |s.queue|);
      NotifyCovers(s.notEmpty, choice, |s.queue|);
      assert s.puts + [item] == s.takes + (s.queue + [item]);
    }
  }

  lemma TakeKeepsInv(s: State, t: Thread, choice: Thread)
    requires Inv(s) && t in s.calls && s.calls[t].Take? && !Asleep(s, t) && CanChoose(s.notFull, choice)
    ensures Inv(AfterTake(s, t, choice))
  {
    WaitersKept(s, t, choice);
    if s.queue == [] {
      WaitingCovers(s.notEmpty, t, 0);
    } else {
      TakingCovers(s.notEmpty, t, |s.queue|);
      NotifyCovers(s.notFull, choice, s.capacity - |s.queue|);
      assert s.takes + s.queue == (s.takes + [s.queue[0]]) + s.queue[1..];
    }
  }

  lemma InvKept(s: State, e: Event)
    requires Inv(s) && Enabled(s, e)
    ensures Inv(Do(s, e))
  {
    match e
    case Call(t, op) =>
    case WakeUp(t) =>
    case Enter(t, choice) =>
      match s.calls[t]
      case Put(item) => PutKeepsInv(s, t, item, choice);
      case Take => TakeKeepsInv(s, t, choice);
  }

  // ---------------------------------------------------------------------------
  // Every run
  // ---------------------------------------------------------------------------

  ghost predicate IsRun(states: seq<State>, events: seq<Event>) {
    && |states| == |events| + 1 && states[0] == Init(states[0].capacity)
    && forall i :: 0 <= i < |events| ==> Enabled(states[i], events[i]) && states[i + 1] == Do(states[i], events[i])
  }

  lemma {:induction false} EveryReachableStateIsSound(states: seq<State>, events: seq<Event>, n: nat)
    requires IsRun(states, events) && n < |states|
    ensures Inv(states[n]) && states[n].capacity == states[0].capacity
  {
    if n == 0 {
    } else {
      EveryReachableStateIsSound(states, events, n - 1);
      InvKept(states[n - 1], events[n - 1]);
    }
  }

  /** No wake-up is lost, for all interleavings, choices, spurious wake-ups and barging: while a
      consumer sleeps unsignalled, every queued item has a consumer signalled for it, and
      while a producer does, every free place has a producer signalled for it. */
  lemma NoWakeupLost(states: seq<State>, events: seq<Event>, n: nat)
    requires IsRun(states, events) && n < |states|
    ensures states[n].notEmpty.waiting != {} ==> |states[n].queue| <= |states[n].notEmpty.signalled|
    ensures states[n].notFull.waiting != {} ==> states[n].capacity - |states[n].queue| <= |states[n].notFull.signalled|
  {
    EveryReachableStateIsSound(states, events, n);
  }

  /** Consumers and producers never all sleep together: if some of both wait, somebody has been
      signalled and will run. */
  lemma NeverAllAsleep(states: seq<State>, events: seq<Event>, n: nat)
    requires IsRun(states, events) && n < |states| && states[n].capacity > 0
    requires states[n].notEmpty.waiting != {} && states[n].notFull.waiting != {}
    ensures exists t :: t in states[n].calls && !Asleep(states[n], t)
  {
    EveryReachableStateIsSound(states, events, n);
    var s := states[n];
    var signalled := s.notEmpty.signalled + s.notFull.signalled;
    assert s.notEmpty.signalled != {} || s.notFull.signalled != {};
    var t :| t in signalled;
    assert InWait(s.notEmpty, t) || InWait(s.notFull, t);
    assert !Asleep(s, t);
  }

  /** With room for nothing they can: positive capacity is needed. */
  lemma NoRoomNoProgress(item: Item)
    ensures exists states: seq<State>, events: seq<Event> ::
              && IsRun(states, events) && |events| == 4 && states[0].capacity == 0
              && states[4].notEmpty.waiting == {1} && states[4].notFull.waiting == {0}
              && (forall t :: t in states[4].calls ==> Asleep(states[4], t))
  {
    var e0, e1, e2, e3 := Call(0, Put(item)), Enter(0, 0), Call(1, Take), Enter(1, 0);
    var s0 := Init(0);
    var s1 := Do(s0, e0);
    var s2 := Do(s1, e1);
    var s3 := Do(s2, e2);
    var s4 := Do(s3, e3);
    var states, events := [s0, s1, s2, s3, s4], [e0, e1, e2, e3];
    assert IsRun(states, events);
    assert states[4] == s4 && s4.notFull.waiting == {0} && s4.notEmpty.waiting == {1};
  }

  /** What thread t called last, by the events alone. */
  function Called(events: seq<Event>, n: nat, t: Thread): Op
    requires n <= |events|
  {
    if n == 0 then Take
    else if events[n - 1].Call? && events[n - 1].t == t then events[n - 1].op
    else Called(events, n - 1, t)
  }

  lemma {:induction false} CallIsKept(states: seq<State>, events: seq<Event>, n: nat, t: Thread)
    requires IsRun(states, events) && n < |states|
    ensures t in states[n].calls ==> states[n].calls[t] == Called(events, n, t)
  {
    if n == 0 {
    } else {
      CallIsKept(states, events, n - 1, t);
      assert Enabled(states[n - 1], events[n - 1]);
    }
  }

  /** The items that callers gave to `put`, in the order in which the calls came through. */
  function Given(states: seq<State>, events: seq<Event>, n: nat): seq<Item>
    requires n <= |events| && n < |states|
  {
    if n == 0 then []
    else Given(states, events, n - 1) + if Through(states, events, n - 1) && Called(events, n - 1, events[n - 1].t).Put?
                                        then [Called(events, n - 1, events[n - 1].t).item] else []
  }

  /** Step k ends its thread's call. */
  predicate Through(states: seq<State>, events: seq<Event>, k: nat)
    requires k < |events| && k + 1 < |states|
  {
    events[k].Enter? && events[k].t !in states[k + 1].calls
  }

  lemma EnterPuts(s: State, t: Thread, choice: Thread)
    requires Enabled(s, Enter(t, choice))
    ensures var s' := Do(s, Enter(t, choice));
            s'.puts == s.puts + if t !in s'.calls && s.calls[t].Put? then [s.calls[t].item] else []
  {
    assert s.puts + [] == s.puts;
  }

  lemma {:induction false} PutsAreGiven(states: seq<State>, events: seq<Event>, n: nat)
    requires IsRun(states, events) && n < |states|
    ensures states[n].puts == Given(states, events, n)
  {
    if n == 0 {
    } else {
      PutsAreGiven(states, events, n - 1);
      var s, e := states[n - 1], events[n - 1];
      assert Enabled(s, e);
      if e.Enter? {
        CallIsKept(states, events, n - 1, e.t);
        EnterPuts(s, e.t, e.choice);
      }
    }
  }

  /** What `take` returns, over a whole run, are the items given to `put`, in order, each once;
      the queue never holds more than its capacity. */
  lemma TakesAreThePuts(states: seq<State>, events: seq<Event>, n: nat)
    requires IsRun(states, events) && n < |states|
    ensures Given(states, events, n) == states[n].takes + states[n].queue && |states[n].queue| <= states[0].capacity
  {
    EveryReachableStateIsSound(states, events, n);
    PutsAreGiven(states, events, n);
  }

  /** The two wait loops and the assertions after them: a thread goes on exactly where it may,
      puts at the end and takes the front. */
  lemma GoesOnExactlyWhenItMay(s: State, t: Thread, choice: Thread)
    requires Inv(s) && Enabled(s, Enter(t, choice))
    ensures var s' := Do(s, Enter(t, choice));
            match s.calls[t]
            case Put(item) => if t in s'.calls then |s.queue| == s.capacity && s'.queue == s.queue
                              else |s.queue| < s.capacity && s'.queue == s.queue + [item]
            case Take => if t in s'.calls then s.queue == s'.queue == []
                         else s.queue != [] && s'.queue == s.queue[1..] && s'.takes == s.takes + [s.queue[0]]
  {
  }

  /** The object itself: its fields change under the mutex exactly as the steps say. */
  class Monitor {
    const capacity: nat
    var queue: seq<Item>
    var notEmpty: Condition
    var notFull: Condition
    var calls: map<Thread, Op>
    ghost var puts: seq<Item>
    ghost var takes: seq<Item>

    ghost function View(): State
      reads this
    {
      State(capacity, queue, notEmpty, notFull, calls, puts, takes)
    }

    constructor (maxSize: nat)
      ensures View() == Init(maxSize) && Inv(View())
    {
      capacity := maxSize;
      queue, notEmpty, notFull, calls := [], NOBODY, NOBODY, map[];
      puts, takes := [], [];
    }

    /** One pass of `put` under the mutex: the wait loop's test, then the push. */
    method TryPut(t: Thread, item: Item, choice: Thread) returns (done: bool)
      requires Inv(View()) && t in calls && calls[t] == Put(item) && !Asleep(View(), t) && CanChoose(notEmpty, choice)
      modifies this
      ensures View() == AfterPut(old(View()), t, item, choice) && Inv(View())
      ensures done <==> old(|queue|) < capacity
      ensures done ==> queue == old(queue) + [item]
    {
      PutKeepsInv(View(), t, item, choice);
      notFull := Back(notFull, t);
      done := |queue| < capacity;
      if !done {
        notFull := Wait(notFull, t);
      } else {
        queue := queue + [item];
        puts := puts + [item];
        calls := calls - {t};
        notEmpty := Notify(notEmpty, choice);
      }
    }

    /** One pass of `take` under the mutex. */
    method TryTake(t: Thread, choice: Thread) returns (done: bool, front: Item)
      requires Inv(View()) && t in calls && calls[t].Take? && !Asleep(View(), t) && CanChoose(notFull, choice)
      modifies this
      ensures View() == AfterTake(old(View()), t, choice) && Inv(View())
      ensures done <==> old(queue) != []
      ensures done ==> old(queue) == [front] + queue
    {
      TakeKeepsInv(View(), t, choice);
      notEmpty := Back(notEmpty, t);
      done := queue != [];
      front := 0;
      if !done {
        notEmpty := Wait(notEmpty, t);
      } else {
        front := queue[0];
        queue := queue[1..];
        takes := takes + [front];
        calls := calls - {t};
        notFull := Notify(notFull, choice);
      }
    }
  }
}
