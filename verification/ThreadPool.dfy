/** `ThreadPool` after `start` with at least one thread: any number of threads call `run`, the
    workers loop over `take`, and `stop` may come at any time. A stretch under the mutex is
    one step; so is the workers' unlocked test of `running_`. */
module ThreadPool {
  import opened Collections
  import opened Condition

  type Task = nat

  /** Where a worker is: at the test of its loop, inside `take`, or running a task, if it got one. */
  datatype Worker = Loop | Taking | Executing(task: Option<Task>)

  /** `callers`: the threads inside `run`, which may be workers whose task calls it. Auxiliary:
      all tasks queued and all handed to workers. */
  datatype State = State(maxQueueSize: nat, running: bool, queue: seq<Task>, notEmpty: Condition, notFull: Condition,
                         workers: map<Thread, Worker>, callers: map<Thread, Task>,
                         queued: seq<Task>, handed: seq<Task>)

  function Init(maxQueueSize: nat, workers: set<Thread>): State {
    State(maxQueueSize, true, [], NOBODY, NOBODY, map t | t in workers :: Loop, map[], [], [])
  }

  datatype Event =
    | Call(t: Thread, task: Task)
    | EnterRun(t: Thread, choice: Thread)
    | Work(t: Thread, choice: Thread)     // a worker's next step
    | Stop
    | WakeUp(t: Thread)

  predicate Asleep(s: State, t: Thread) { Waits(s.notEmpty, t) || Waits(s.notFull, t) }

  predicate IsFull(s: State) { s.maxQueueSize > 0 && |s.queue| >= s.maxQueueSize }

  predicate Enabled(s: State, e: Event) {
    match e
    case Call(t, _) => t !in s.callers && (t in s.workers ==> s.workers[t].Executing?)
    case EnterRun(t, choice) => t in s.callers && !Asleep(s, t) && CanChoose(s.notEmpty, choice)
    case Work(t, choice) => t in s.workers && t !in s.callers && !Asleep(s, t) && CanChoose(s.notFull, choice)
    case Stop => true
    case WakeUp(t) => Asleep(s, t)
  }

  function Do(s: State, e: Event): State
    requires Enabled(s, e)
  {
    match e
    case Call(t, task) => s.(callers := s.callers[t := task])
    case EnterRun(t, choice) => AfterRun(s, t, s.callers[t], choice)
    case Work(t, choice) => AfterWork(s, t, choice)
    case Stop => s.(running := false, notEmpty := NotifyAll(s.notEmpty))
    case WakeUp(t) => s.(notEmpty := Spurious(s.notEmpty, t), notFull := Spurious(s.notFull, t))
  }

  function AfterRun(s: State, t: Thread, task: Task, choice: Thread): State {
    if IsFull(s) then s.(notFull := Wait(Back(s.notFull, t), t))
    else s.(notFull := Back(s.notFull, t), queue := s.queue + [task], notEmpty := Notify(s.notEmpty, choice),
            callers := s.callers - {t}, queued := s.queued + [task])
  }

  function AfterWork(s: State, t: Thread, choice: Thread): State
    requires t in s.workers
  {
    match s.workers[t]
    case Loop => s.(workers := if s.running then s.workers[t := Taking] else s.workers - {t})
    case Taking => AfterTake(s, t, choice)
    case Executing(_) => s.(workers := s.workers[t := Loop])
  }

  function AfterTake(s: State, t: Thread, choice: Thread): State {
    if s.queue == [] && s.running then s.(notEmpty := Wait(Back(s.notEmpty, t), t))
    else if s.queue == [] then s.(notEmpty := Back(s.notEmpty, t), workers := s.workers[t := Executing(None)])
    else s.(notEmpty := Back(s.notEmpty, t), queue := s.queue[1..],
            notFull := if s.maxQueueSize > 0 then Notify(s.notFull, choice) else s.notFull,
            workers := s.workers[t := Executing(Some(s.queue[0]))], handed := s.handed + [s.queue[0]])
  }

  /** Who waits on a condition is in a call that waits for it. */
  ghost predicate WaitersInv(s: State) {
    && (forall t :: InWait(s.notEmpty, t) ==> t in s.workers && s.workers[t].Taking? && t !in s.callers)
    && (forall t :: InWait(s.notFull, t) ==> t in s.callers)
    && (forall t :: t in s.callers && t in s.workers ==> s.workers[t].Executing?)
  }

  ghost predicate Inv(s: State) {
    && s.queued == s.handed + s.queue && WaitersInv(s) && Valid(s.notEmpty) && Valid(s.notFull)
    && (s.maxQueueSize > 0 ==> |s.queue| <= s.maxQueueSize && Covered(s.notFull, s.maxQueueSize - |s.queue|))
    && (s.maxQueueSize == 0 ==> s.notFull.waiting == {})
    && Covered(s.notEmpty, |s.queue|) && (!s.running ==> s.notEmpty.waiting == {})
  }

  lemma RunKeepsInv(s: State, t: Thread, choice: Thread)
    requires Inv(s) && Enabled(s, EnterRun(t, choice))
    ensures Inv(AfterRun(s, t, s.callers[t], choice))
  {
    var s' := AfterRun(s, t, s.callers[t], choice);
    RunKeepsWaiters(s, t, choice);
    if IsFull(s) {
      WaitingCovers(s.notFull, t, s.maxQueueSize - |s.queue|);
    } else {
      TakingCovers(s.notFull, t, s.maxQueueSize - |s.queue|);
      NotifyCovers(s.notEmpty, choice, |s.queue|);
      assert s.queued + [s.callers[t]] == s.handed + (s.queue + [s.callers[t]]);
    }
  }

  lemma RunKeepsWaiters(s: State, t: Thread, choice: Thread)
    requires WaitersInv(s) && Enabled(s, EnterRun(t, choice))
    ensures WaitersInv(AfterRun(s, t, s.callers[t], choice))
  {
  }

  lemma TakeKeepsInv(s: State, t: Thread, choice: Thread)
    requires Inv(s) && Enabled(s, Work(t, choice)) && s.workers[t].Taking?
    ensures Inv(AfterTake(s, t, choice))
  {
    TakeKeepsWaiters(s, t, choice);
    if s.queue == [] {
      if s.running { WaitingCovers(s.notEmpty, t, 0); } else { TakingCovers(s.notEmpty, t, 1); }
    } else {
      TakingCovers(s.notEmpty, t, |s.queue|);
      if s.maxQueueSize > 0 { NotifyCovers(s.notFull, choice, s.maxQueueSize - |s.queue|); }
      assert s.handed + s.queue == (s.handed + [s.queue[0]]) + s.queue[1..];
    }
  }

  lemma TakeKeepsWaiters(s: State, t: Thread, choice: Thread)
    requires WaitersInv(s) && Enabled(s, Work(t, choice)) && s.workers[t].Taking?
    ensures WaitersInv(AfterTake(s, t, choice))
  {
  }

  lemma InvKept(s: State, e: Event)
    requires Inv(s) && Enabled(s, e)
    ensures Inv(Do(s, e))
  {
    match e
    case Call(_, _) =>
    case EnterRun(t, choice) => RunKeepsInv(s, t, choice);
    case Work(t, choice) => if s.workers[t].Taking? { TakeKeepsInv(s, t, choice); }
    case Stop =>
    case WakeUp(_) =>
  }

  // ---------------------------------------------------------------------------
  // Every run
  // ---------------------------------------------------------------------------

  ghost predicate IsRun(states: seq<State>, events: seq<Event>) {
    && |states| == |events| + 1 && states[0] == Init(states[0].maxQueueSize, states[0].workers.Keys)
    && forall i :: 0 <= i < |events| ==> Enabled(states[i], events[i]) && states[i + 1] == Do(states[i], events[i])
  }

  lemma {:induction false} EveryReachableStateIsSound(states: seq<State>, events: seq<Event>, n: nat)
    requires IsRun(states, events) && n < |states|
    ensures Inv(states[n]) && states[n].maxQueueSize == states[0].maxQueueSize
  {
    if n == 0 {
    } else {
      EveryReachableStateIsSound(states, events, n - 1);
      InvKept(states[n - 1], events[n - 1]);
    }
  }

  /** No wake-up is lost while a worker or a caller of `run` sleeps unsignalled; and after `stop`
      no worker sleeps at all. */
  lemma NoWakeupLost(states: seq<State>, events: seq<Event>, n: nat)
    requires IsRun(states, events) && n < |states|
    ensures var s := states[n];
            && (s.notEmpty.waiting != {} ==> |s.queue| <= |s.notEmpty.signalled|)
            && (s.notFull.waiting != {} ==> s.maxQueueSize > 0 && s.maxQueueSize - |s.queue| <= |s.notFull.signalled|)
            && (!s.running ==> s.notEmpty.waiting == {})
  {
    EveryReachableStateIsSound(states, events, n);
  }

  /** Workers and callers never all sleep together. */
  lemma NeverAllAsleep(states: seq<State>, events: seq<Event>, n: nat)
    requires IsRun(states, events) && n < |states|
    requires states[n].notEmpty.waiting != {} && states[n].notFull.waiting != {}
    ensures exists t :: (t in states[n].workers || t in states[n].callers) && !Asleep(states[n], t)
  {
    EveryReachableStateIsSound(states, events, n);
    var s := states[n];
    assert s.notEmpty.signalled != {} || s.notFull.signalled != {};
    var t :| t in s.notEmpty.signalled + s.notFull.signalled;
    assert InWait(s.notEmpty, t) || InWait(s.notFull, t);
    assert !Asleep(s, t);
  }

  /** The task thread t called `run` with last, by the events alone. */
  function Called(events: seq<Event>, n: nat, t: Thread): Task
    requires n <= |events|
  {
    if n == 0 then 0
    else if events[n - 1].Call? && events[n - 1].t == t then events[n - 1].task
    else Called(events, n - 1, t)
  }

  lemma {:induction false} CallIsKept(states: seq<State>, events: seq<Event>, n: nat, t: Thread)
    requires IsRun(states, events) && n < |states|
    ensures t in states[n].callers ==> states[n].callers[t] == Called(events, n, t)
  {
    if n == 0 {
    } else {
      CallIsKept(states, events, n - 1, t);
      assert Enabled(states[n - 1], events[n - 1]);
    }
  }

  /** The tasks given to `run`, in the order in which the calls came through. */
  function Given(states: seq<State>, events: seq<Event>, n: nat): seq<Task>
    requires n <= |events| && n < |states|
  {
    if n == 0 then []
    else Given(states, events, n - 1) + if events[n - 1].EnterRun? && events[n - 1].t !in states[n].callers
                                        then [Called(events, n - 1, events[n - 1].t)] else []
  }

  /** The task a worker's step begins to execute. */
  function Begun(s: State, e: Event, s': State): seq<Task> {
    if e.Work? && e.t in s.workers && !s.workers[e.t].Executing? && e.t in s'.workers && s'.workers[e.t].Executing?
       && s'.workers[e.t].task.Some? then [s'.workers[e.t].task.value] else []
  }

  /** The tasks the workers executed, in the order in which they began. */
  function Executed(states: seq<State>, events: seq<Event>, n: nat): seq<Task>
    requires n <= |events| && n < |states|
  {
    if n == 0 then []
    else Executed(states, events, n - 1) + Begun(states[n - 1], events[n - 1], states[n])
  }

  lemma HistoryStep(s: State, e: Event)
    requires Enabled(s, e)
    ensures var s' := Do(s, e);
            && s'.queued == s.queued + (if e.EnterRun? && e.t !in s'.callers then [s.callers[e.t]] else [])
            && s'.handed == s.handed + Begun(s, e, s')
  {
    assert s.queued + [] == s.queued && s.handed + [] == s.handed;
  }

  lemma {:induction false} HistoriesAreRight(states: seq<State>, events: seq<Event>, n: nat)
    requires IsRun(states, events) && n < |states|
    ensures states[n].queued == Given(states, events, n) && states[n].handed == Executed(states, events, n)
  {
    if n == 0 {
    } else {
      HistoriesAreRight(states, events, n - 1);
      assert Enabled(states[n - 1], events[n - 1]);
      HistoryStep(states[n - 1], events[n - 1]);
      if events[n - 1].EnterRun? { CallIsKept(states, events, n - 1, events[n - 1].t); }
    }
  }

  /** The tasks executed over a whole run are those given to `run`, in order, each at most once;
      what is not executed yet is queued; and the bound is kept. */
  lemma ExecutedInOrder(states: seq<State>, events: seq<Event>, n: nat)
    requires IsRun(states, events) && n < |states|
    ensures Given(states, events, n) == Executed(states, events, n) + states[n].queue
    ensures states[0].maxQueueSize > 0 ==> |states[n].queue| <= states[0].maxQueueSize
  {
    EveryReachableStateIsSound(states, events, n);
    HistoriesAreRight(states, events, n);
  }

  /** The two wait loops: `run` waits exactly while a bound is reached, `take` exactly while there
      is nothing and the pool runs; else the task goes to the end, or the front is taken. */
  lemma WaitsExactlyWhenItMust(s: State, e: Event)
    requires Inv(s) && Enabled(s, e)
    ensures e.EnterRun? ==>
              if 0 < s.maxQueueSize == |s.queue| then Asleep(Do(s, e), e.t) && Do(s, e).queue == s.queue
              else e.t !in Do(s, e).callers && Do(s, e).queue == s.queue + [s.callers[e.t]]
    ensures e.Work? && s.workers[e.t].Taking? ==>
              var s' := Do(s, e);
              if s.queue == [] && s.running then Asleep(s', e.t) && s'.queue == []
              else if s.queue == [] then s'.workers[e.t] == Executing(None) && s'.queue == []
              else s'.workers[e.t] == Executing(Some(s.queue[0])) && s'.queue == s.queue[1..]
  {
  }

  /** No worker leaves before `stop`. */
  lemma {:induction false} WorkersStay(states: seq<State>, events: seq<Event>, n: nat)
    requires IsRun(states, events) && n < |states| && states[n].running
    ensures states[n].workers.Keys == states[0].workers.Keys
  {
    if n == 0 {
    } else {
      assert Enabled(states[n - 1], events[n - 1]);
      WorkersStay(states, events, n - 1);
    }
  }

  // ---------------------------------------------------------------------------
  // Stopping
  // ---------------------------------------------------------------------------

  ghost function SomeChoice(c: Condition): (choice: Thread)
    ensures CanChoose(c, choice)
  {
    if c.waiting == {} then 0 else var t :| t in c.waiting; t
  }

  /** One worker's own steps. */
  ghost function WorkAlone(s: State, t: Thread, steps: nat): State
    decreases steps
  {
    if steps > 0 && Enabled(s, Work(t, SomeChoice(s.notFull)))
    then WorkAlone(AfterWork(s, t, SomeChoice(s.notFull)), t, steps - 1)
    else s
  }

  /** Before `stop`, and left alone, a worker that is through with its task executes the front of
      the queue next. */
  lemma NextTask(s: State, t: Thread)
    requires Inv(s) && s.running && s.queue != [] && t in s.workers && t !in s.callers && s.workers[t].Executing?
    ensures var s' := WorkAlone(s, t, 3);
            t in s'.workers && s'.workers[t] == Executing(Some(s.queue[0])) && s'.queue == s.queue[1..]
  {
    assert !Asleep(s, t) by { assert InWait(s.notFull, t) ==> t in s.callers; }
    var c := SomeChoice(s.notFull);
    var s1 := AfterWork(s, t, c);
    var s2 := AfterWork(s1, t, c);
    var s3 := AfterWork(s2, t, c);
    assert WorkAlone(s, t, 3) == WorkAlone(s1, t, 2) == WorkAlone(s2, t, 1) == WorkAlone(s3, t, 0);
  }

  /** After `stop` every worker that is not inside a call of `run` leaves within three of its
      own steps, having taken at most one more task, so `join` returns. */
  lemma StoppedWorkerLeaves(s: State, t: Thread)
    requires Inv(s) && !s.running && t in s.workers && t !in s.callers
    ensures var s' := WorkAlone(s, t, 3);
            t !in s'.workers && |s'.handed| <= |s.handed| + 1
  {
    assert !Asleep(s, t) by { assert InWait(s.notFull, t) ==> t in s.callers; }
    var s1 := AfterWork(s, t, SomeChoice(s.notFull));
    InvKept(s, Work(t, SomeChoice(s.notFull)));
    assert WorkAlone(s, t, 3) == WorkAlone(s1, t, 2);
    if t in s1.workers { LeavesFromHere(s1, t); }
  }

  lemma LeavesFromHere(s: State, t: Thread)
    requires Inv(s) && !s.running && t in s.workers && t !in s.callers && !s.workers[t].Taking?
    ensures t !in WorkAlone(s, t, 2).workers && WorkAlone(s, t, 2).handed == s.handed
  {
    assert !Asleep(s, t) by { assert InWait(s.notFull, t) ==> t in s.callers; }
    var s1 := AfterWork(s, t, SomeChoice(s.notFull));
    assert WorkAlone(s, t, 2) == WorkAlone(s1, t, 1);
    if t in s1.workers {
      assert WorkAlone(s1, t, 1) == WorkAlone(AfterWork(s1, t, SomeChoice(s1.notFull)), t, 0);
    }
  }

  // ---------------------------------------------------------------------------
  // Jams
  // ---------------------------------------------------------------------------

  /** The queue is full, and every worker there is waits for room in it itself, or none is left. */
  ghost predicate Jammed(s: State) { IsFull(s) && forall t :: t in s.workers ==> t in s.callers }

  /** No step takes a task, ends a call of `run` or lets a worker go. */
  lemma JamStays(s: State, e: Event)
    requires Enabled(s, e) && Jammed(s)
    ensures Jammed(Do(s, e)) && Do(s, e).workers == s.workers && Do(s, e).queue == s.queue
    ensures s.callers.Keys <= Do(s, e).callers.Keys
  {
  }

  lemma {:induction false} JammedForEver(states: seq<State>, events: seq<Event>, i: nat, j: nat)
    requires IsRun(states, events) && i <= j < |states| && Jammed(states[i])
    ensures Jammed(states[j]) && states[j].workers == states[i].workers && states[j].queue == states[i].queue
    ensures states[i].callers.Keys <= states[j].callers.Keys
  {
    if i == j {
    } else {
      JammedForEver(states, events, i, j - 1);
      JamStays(states[j - 1], events[j - 1]);
    }
  }

  ghost predicate Reachable(maxQueueSize: nat, workers: set<Thread>, s: State) {
    exists states: seq<State>, events: seq<Event> ::
      IsRun(states, events) && states[0] == Init(maxQueueSize, workers) && states[|events|] == s
  }

  lemma Starts(m: nat, workers: set<Thread>)
    ensures Reachable(m, workers, Init(m, workers))
  {
    var s := Init(m, workers);
    assert s.workers.Keys == workers;
    assert IsRun([s], []) && [s][0] == s;
  }

  lemma GoesOn(m: nat, workers: set<Thread>, s: State, e: Event)
    requires Reachable(m, workers, s) && Enabled(s, e)
    ensures Reachable(m, workers, Do(s, e))
  {
    var states: seq<State>, events: seq<Event> :|
      IsRun(states, events) && states[0] == Init(m, workers) && states[|events|] == s;
    var states', events' := states + [Do(s, e)], events + [e];
    assert IsRun(states', events') && states'[0] == Init(m, workers) && states'[|events'|] == Do(s, e);
  }

  /** Nobody waits or calls; the workers in `busy` run a task, the others are at their loops. */
  ghost predicate Calm(s: State, m: nat, workers: set<Thread>, busy: set<Thread>, queued: nat) {
    && s.maxQueueSize == m && s.running && s.notEmpty == NOBODY && s.notFull == NOBODY && s.callers == map[]
    && s.workers.Keys == workers && |s.queue| == queued
    && forall t :: t in workers ==> s.workers[t] == if t in busy then Executing(Some(1)) else Loop
  }

  lemma OneMore(all: set<Thread>, some: set<Thread>) returns (t: Thread)
    requires some < all
    ensures t in all - some
  {
    assert all == some + (all - some);
    t :| t in all - some;
  }

  /** A thread that is no worker puts a task in. */
  lemma Puts(m: nat, workers: set<Thread>, s: State, c: Thread, busy: set<Thread>, n: nat) returns (s': State)
    requires Reachable(m, workers, s) && Calm(s, m, workers, busy, n) && c !in workers && n < m
    ensures Reachable(m, workers, s') && Calm(s', m, workers, busy, n + 1) && s'.queue == s.queue + [1]
  {
    var s1 := Do(s, Call(c, 1));
    GoesOn(m, workers, s, Call(c, 1));
    GoesOn(m, workers, s1, EnterRun(c, 0));
    s' := Do(s1, EnterRun(c, 0));
    assert s'.callers == map[];
  }

  lemma {:induction false} Fills(m: nat, workers: set<Thread>, s: State, c: Thread, busy: set<Thread>, n: nat) returns (s': State)
    requires Reachable(m, workers, s) && Calm(s, m, workers, busy, n) && c !in workers && n <= m
    ensures Reachable(m, workers, s') && Calm(s', m, workers, busy, m)
    decreases m - n
  {
    if n == m {
      s' := s;
    } else {
      var s1 := Puts(m, workers, s, c, busy, n);
      s' := Fills(m, workers, s1, c, busy, n + 1);
    }
  }

  /** One more worker takes a task. */
  lemma Busies(m: nat, workers: set<Thread>, s: State, c: Thread, busy: set<Thread>, w: Thread) returns (s': State)
    requires m > 0 && Reachable(m, workers, s) && Calm(s, m, workers, busy, 0) && c !in workers && w in workers - busy
    ensures Reachable(m, workers, s') && Calm(s', m, workers, busy + {w}, 0)
  {
    var s1 := Puts(m, workers, s, c, busy, 0);
    GoesOn(m, workers, s1, Work(w, 0));
    var s2 := Do(s1, Work(w, 0));
    GoesOn(m, workers, s2, Work(w, 0));
    s' := Do(s2, Work(w, 0));
    assert s1.queue == [1];
  }

  lemma {:induction false} AllBusy(m: nat, workers: set<Thread>, s: State, c: Thread, busy: set<Thread>) returns (s': State)
    requires m > 0 && Reachable(m, workers, s) && Calm(s, m, workers, busy, 0) && c !in workers && busy <= workers
    ensures Reachable(m, workers, s') && Calm(s', m, workers, workers, 0)
    decreases workers - busy
  {
    if busy == workers {
      s' := s;
    } else {
      var w := OneMore(workers, busy);
      var s1 := Busies(m, workers, s, c, busy, w);
      s' := AllBusy(m, workers, s1, c, busy + {w});
    }
  }

  /** A full queue, and the threads in `blocked` wait for room. */
  ghost predicate Blocked(s: State, m: nat, blocked: set<Thread>) {
    && s.maxQueueSize == |s.queue| == m > 0 && s.notEmpty == NOBODY && s.notFull == Condition(blocked, {})
    && s.callers.Keys == blocked
  }

  lemma Blocks(m: nat, workers: set<Thread>, s: State, blocked: set<Thread>, t: Thread) returns (s': State)
    requires Reachable(m, workers, s) && Blocked(s, m, blocked) && t !in blocked && (t in s.workers ==> s.workers[t].Executing?)
    ensures Reachable(m, workers, s') && Blocked(s', m, blocked + {t}) && s'.workers == s.workers && s'.running == s.running
  {
    var s1 := Do(s, Call(t, 1));
    GoesOn(m, workers, s, Call(t, 1));
    GoesOn(m, workers, s1, EnterRun(t, 0));
    s' := Do(s1, EnterRun(t, 0));
    assert s'.notFull == Condition(blocked + {t}, {});
  }

  lemma {:induction false} AllBlock(m: nat, workers: set<Thread>, s: State, blocked: set<Thread>) returns (s': State)
    requires Reachable(m, workers, s) && Blocked(s, m, blocked) && blocked <= workers == s.workers.Keys && s.running
    requires forall t :: t in workers ==> s.workers[t].Executing?
    ensures Reachable(m, workers, s') && Blocked(s', m, workers) && s'.workers.Keys == workers && s'.running
    decreases workers - blocked
  {
    if blocked == workers {
      s' := s;
    } else {
      var w := OneMore(workers, blocked);
      var s1 := Blocks(m, workers, s, blocked, w);
      s' := AllBlock(m, workers, s1, blocked + {w});
    }
  }

  /** Some number no worker has. */
  lemma {:induction false} Outsider(workers: set<Thread>) returns (c: Thread)
    ensures forall t :: t in workers ==> t < c
  {
    if workers == {} {
      c := 0;
    } else {
      var t :| t in workers;
      var c' := Outsider(workers - {t});
      c := if c' > t then c' else t + 1;
      assert forall u :: u in workers ==> u == t || u in workers - {t};
    }
  }

  lemma JamNeedsBound(m: nat, workers: set<Thread>, s: State)
    requires Reachable(m, workers, s) && Jammed(s)
    ensures m > 0
  {
    var states: seq<State>, events: seq<Event> :|
      IsRun(states, events) && states[0] == Init(m, workers) && states[|events|] == s;
    EveryReachableStateIsSound(states, events, |events|);
  }

  /** A pool whose tasks call `run` themselves: all its workers can come to wait in `run` for
      ever exactly if the queue is bounded. */
  ghost predicate WorkersCanJam(m: nat, workers: set<Thread>) {
    exists s :: Reachable(m, workers, s) && s.running && Jammed(s) && s.workers.Keys == workers == s.notFull.waiting
  }

  lemma WorkersJamIfBounded(m: nat, workers: set<Thread>)
    requires workers != {}
    ensures WorkersCanJam(m, workers) <==> m > 0
  {
    if WorkersCanJam(m, workers) {
      var s :| Reachable(m, workers, s) && s.running && Jammed(s) && s.workers.Keys == workers == s.notFull.waiting;
      JamNeedsBound(m, workers, s);
    }
    if m > 0 {
      var c := Outsider(workers);
      Starts(m, workers);
      var s1 := AllBusy(m, workers, Init(m, workers), c, {});
      var s2 := Fills(m, workers, s1, c, workers, 0);
      var s3 := AllBlock(m, workers, s2, {});
      assert Reachable(m, workers, s3) && Jammed(s3);
    }
  }

  // ---------------------------------------------------------------------------
  // Callers that `stop` strands
  // ---------------------------------------------------------------------------

  /** The pool is stopped, its workers have left, and t waits for room. */
  ghost predicate Stranded(s: State, t: Thread) {
    !s.running && s.workers == map[] && Jammed(s) && t in s.callers
  }

  /** Stopped, workers that are at their loops leave one after the other. */
  lemma {:induction false} WorkersLeave(m: nat, workers: set<Thread>, s: State, c: Thread) returns (s': State)
    requires Reachable(m, workers, s) && Blocked(s, m, {c}) && !s.running && c !in s.workers
    requires forall t :: t in s.workers ==> s.workers[t].Loop?
    ensures Reachable(m, workers, s') && Blocked(s', m, {c}) && !s'.running && s'.workers == map[]
    decreases s.workers.Keys
  {
    if s.workers == map[] {
      s' := s;
    } else {
      var t :| t in s.workers;
      GoesOn(m, workers, s, Work(t, c));
      var s1 := Do(s, Work(t, c));
      assert s1.workers.Keys == s.workers.Keys - {t};
      s' := WorkersLeave(m, workers, s1, c);
    }
  }

  ghost predicate CanStrand(m: nat, workers: set<Thread>) {
    exists s, t :: Reachable(m, workers, s) && Stranded(s, t) && Asleep(s, t)
  }

  /** `stop` wakes the workers only: a caller of `run` can come to wait for room in a pool that
      all workers have left, and then waits for ever, exactly if the queue is bounded. */
  lemma StopStrandsIfBounded(m: nat, workers: set<Thread>)
    requires workers != {}
    ensures CanStrand(m, workers) <==> m > 0
  {
    if CanStrand(m, workers) {
      var s, t :| Reachable(m, workers, s) && Stranded(s, t) && Asleep(s, t);
      JamNeedsBound(m, workers, s);
    }
    if m > 0 {
      var c := Outsider(workers);
      Starts(m, workers);
      var s1 := Fills(m, workers, Init(m, workers), c, {}, 0);
      var s2 := Blocks(m, workers, s1, {}, c);
      GoesOn(m, workers, s2, Stop);
      var s3 := Do(s2, Stop);
      assert s3.notEmpty == NOBODY && s2.workers == s1.workers;
      var s4 := WorkersLeave(m, workers, s3, c);
      assert Reachable(m, workers, s4) && Stranded(s4, c) && Asleep(s4, c);
    }
  }

  /** A stranded caller never gets out of `run`. */
  lemma StrandedForEver(states: seq<State>, events: seq<Event>, i: nat, j: nat, t: Thread)
    requires IsRun(states, events) && i <= j < |states| && Stranded(states[i], t)
    ensures Stranded(states[j], t)
  {
    JammedForEver(states, events, i, j);
    StaysStopped(states, events, i, j);
  }

  lemma {:induction false} StaysStopped(states: seq<State>, events: seq<Event>, i: nat, j: nat)
    requires IsRun(states, events) && i <= j < |states| && !states[i].running
    ensures !states[j].running
  {
    if i == j {
    } else {
      StaysStopped(states, events, i, j - 1);
      assert Enabled(states[j - 1], events[j - 1]);
    }
  }
}
