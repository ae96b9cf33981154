/** `EventLoop`: the task queue of an I/O loop and the eventfd that wakes it. The loop thread
    runs `loop`, handlers and functors; any number of other threads call `queueInLoop`,
    `runInLoop` and `quit`. One access to shared state is one step. */
module EventLoop {
  type Thread = nat
  type Functor = nat

  /** The value at which a write to an eventfd fails: 2^64 - 2. */
  const COUNTER_MAX: nat := 0xFFFF_FFFF_FFFF_FFFE

  /** Where the loop thread is. `wakeActive`: the poll reported the eventfd readable and
      `handleRead` is still to come. `owes`: a functor has pushed and not yet woken. */
  datatype LoopPc =
    | Outside
    | Test
    | Polling
    | Handling(wakeActive: bool)
    | Swap
    | Running(functors: seq<Functor>, next: nat, owes: bool)

  /** Where another thread is in a call. */
  datatype CallerPc = Idle | Push(f: Functor) | SetQuit | Wake

  /** Auxiliary: `queued` and `ran` are all functors pushed and all taken from the queue and
      started, in order; `direct` those `runInLoop` ran on the spot; `early` says that the
      loop thread itself queued something outside `loop()` and no pass has been made since. */
  datatype State = State(
    quit: bool, calling: bool, pending: seq<Functor>, counter: nat, loop: LoopPc, callers: map<Thread, CallerPc>,
    queued: seq<Functor>, ran: seq<Functor>, direct: seq<Functor>, early: bool)

  const INIT := State(false, false, [], 0, Outside, map[], [], [], [], false)

  datatype Event =
    | Start                       // the loop thread calls loop()
    | Loop(others: bool)          // its next step; a poll may also return for other channels or a timeout
    | LoopQueue(f: Functor)       // queueInLoop, called by the loop thread outside loop(), in a handler or in a functor
    | LoopRun(f: Functor)         // runInLoop, likewise
    | LoopQuit                    // quit, likewise
    | Call(t: Thread, op: CallerPc)
    | Step(t: Thread)

  function CallerOf(s: State, t: Thread): CallerPc { if t in s.callers then s.callers[t] else Idle }

  /** `wakeup`: a write that would overflow the counter fails and leaves it. */
  function Woken(counter: nat): nat { if counter < COUNTER_MAX then counter + 1 else counter }

  /** Where code of the user runs on the loop thread. */
  predicate InUserCode(p: LoopPc) {
    p.Outside? || (p.Handling? && !p.wakeActive) || (p.Running? && 0 < p.next && !p.owes)
  }

  predicate Enabled(s: State, e: Event) {
    match e
    case Start => s.loop.Outside?
    case Loop(others) =>
      && !s.loop.Outside?
      // a poll returns when the eventfd is readable, for another channel, or after its timeout
      && (s.loop.Polling? ==> s.counter > 0 || others)
    case LoopQueue(_) => InUserCode(s.loop)
    case LoopRun(_) => InUserCode(s.loop)
    case LoopQuit => InUserCode(s.loop)
    case Call(t, op) => CallerOf(s, t).Idle? && (op.Push? || op.SetQuit?)
    case Step(t) => !CallerOf(s, t).Idle?
  }

  function Do(s: State, e: Event): State
    requires Enabled(s, e)
  {
    match e
    case Start => s.(quit := false, loop := Test)
    case Loop(_) => DoLoop(s)
    case LoopQueue(f) => DoLoopQueue(s, f)
    case LoopRun(f) => s.(direct := s.direct + [f])
    case LoopQuit => s.(quit := true)
    case Call(t, op) => s.(callers := s.callers[t := op])
    case Step(t) => DoCaller(s, t)
  }

  /** The loop thread's own steps. */
  function DoLoop(s: State): State {
    match s.loop
    case Test => s.(loop := if s.quit then Outside else Polling)
    case Polling => s.(loop := Handling(s.counter > 0))
    case Handling(wakeActive) =>
      if wakeActive then s.(counter := 0, loop := Handling(false))   // handleRead
      else s.(calling := true, loop := Swap)
    case Swap => s.(pending := [], loop := Running(s.pending, 0, false), early := false)
    case Running(functors, next, owes) =>
      if owes then s.(counter := Woken(s.counter), loop := s.loop.(owes := false))
      else if next < |functors| then s.(loop := s.loop.(next := next + 1), ran := s.ran + [functors[next]])
      else s.(calling := false, loop := Test)
    case _ => s
  }

  /** `queueInLoop` on the loop thread wakes only from within functors. */
  function DoLoopQueue(s: State, f: Functor): State {
    var pushed := s.(pending := s.pending + [f], queued := s.queued + [f]);
    if s.calling && s.loop.Running? then pushed.(loop := s.loop.(owes := true))
    else pushed.(early := s.early || s.loop.Outside?)
  }

  function DoCaller(s: State, t: Thread): State {
    match CallerOf(s, t)
    case Push(f) => s.(pending := s.pending + [f], queued := s.queued + [f], callers := s.callers[t := Wake])
    case SetQuit => s.(quit := true, callers := s.callers[t := Wake])
    case Wake => s.(counter := Woken(s.counter), callers := s.callers[t := Idle])
    case Idle => s
  }

  // ---------------------------------------------------------------------------
  // Invariant
  // ---------------------------------------------------------------------------

  /** The eventfd is readable, or someone is about to make it so. */
  ghost predicate WakeDue(s: State) {
    s.counter > 0 || (exists t: Thread :: CallerOf(s, t).Wake?) || (s.loop.Running? && s.loop.owes)
  }

  /** A pass over the queue is due before the next poll. */
  predicate PassDue(p: LoopPc) { p.Handling? || p.Swap? }

  function Taken(p: LoopPc): seq<Functor> {
    if p.Running? && p.next <= |p.functors| then p.functors[p.next..] else []
  }

  ghost predicate Inv(s: State) {
    && (s.pending != [] && !PassDue(s.loop) && !s.early ==> WakeDue(s))
    && (s.loop.Polling? && s.quit ==> WakeDue(s))
    && (s.loop.Handling? && s.loop.wakeActive ==> s.counter > 0)
    && (s.loop.Running? ==> s.loop.next <= |s.loop.functors|)
    && (s.calling <==> s.loop.Swap? || s.loop.Running?)
    && (s.early ==> s.pending != [])
    && s.queued == s.ran + Taken(s.loop) + s.pending
  }

  /** A step that leaves queue and callers alone keeps a due wake-up unless it reads it. */
  lemma WakeStaysDue(s: State, s': State)
    requires WakeDue(s) && s'.callers == s.callers
    requires s'.counter > 0 || s'.counter >= s.counter
    requires s.loop.Running? && s.loop.owes ==> s'.counter > 0 || (s'.loop.Running? && s'.loop.owes)
    ensures WakeDue(s')
  {
    if s.counter == 0 && !(s.loop.Running? && s.loop.owes) {
      var t: Thread :| CallerOf(s, t).Wake?;
      assert CallerOf(s', t).Wake?;
    }
  }

  lemma CallerStepKeepsInv(s: State, t: Thread)
    requires Inv(s) && !CallerOf(s, t).Idle?
    ensures Inv(DoCaller(s, t))
  {
    var s' := DoCaller(s, t);
    if CallerOf(s, t).Wake? {
      assert WakeDue(s');
    } else {
      assert CallerOf(s', t).Wake?;
    }
    assert s.queued + (s'.pending[|s.pending|..]) == s.ran + Taken(s.loop) + (s.pending + s'.pending[|s.pending|..]);
  }

  lemma CallKeepsInv(s: State, t: Thread, op: CallerPc)
    requires Inv(s) && CallerOf(s, t).Idle?
    ensures Inv(s.(callers := s.callers[t := op]))
  {
    var s' := s.(callers := s.callers[t := op]);
    if WakeDue(s) && s.counter == 0 && !(s.loop.Running? && s.loop.owes) {
      var u: Thread :| CallerOf(s, u).Wake?;
      assert CallerOf(s', u).Wake?;
    }
  }

  /** What runs comes from the front of what was taken. */
  lemma LoopStepKeepsOrder(s: State)
    requires s.loop.Running? ==> s.loop.next <= |s.loop.functors|
    requires s.queued == s.ran + Taken(s.loop) + s.pending
    ensures var s' := DoLoop(s); s'.queued == s'.ran + Taken(s'.loop) + s'.pending
  {
    assert s.loop.Swap? ==> s.pending[0..] == s.pending;
    if s.loop.Running? && !s.loop.owes && s.loop.next < |s.loop.functors| {
      assert s.loop.functors[s.loop.next..] == [s.loop.functors[s.loop.next]] + s.loop.functors[s.loop.next + 1..];
    }
  }

  lemma LoopStepKeepsInv(s: State)
    requires Inv(s) && !s.loop.Outside?
    ensures Inv(DoLoop(s))
  {
    LoopStepKeepsOrder(s);
    if WakeDue(s) && !s.loop.Handling? { WakeStaysDue(s, DoLoop(s)); }
  }

  lemma InvKept(s: State, e: Event)
    requires Inv(s) && Enabled(s, e)
    ensures Inv(Do(s, e))
  {
    match e
    case Start => if WakeDue(s) { WakeStaysDue(s, Do(s, e)); }
    case Loop(_) => LoopStepKeepsInv(s);
    case LoopQueue(f) =>
      assert s.queued + [f] == s.ran + Taken(s.loop) + (s.pending + [f]);
      if WakeDue(s) { WakeStaysDue(s, Do(s, e)); }
    case LoopRun(_) => if WakeDue(s) { WakeStaysDue(s, Do(s, e)); }
    case LoopQuit => if WakeDue(s) { WakeStaysDue(s, Do(s, e)); }
    case Call(t, op) => CallKeepsInv(s, t, op);
    case Step(t) => CallerStepKeepsInv(s, t);
  }

  // ---------------------------------------------------------------------------
  // Every run
  // ---------------------------------------------------------------------------

  ghost predicate IsRun(states: seq<State>, events: seq<Event>) {
    && |states| == |events| + 1 && states[0] == INIT
    && forall i :: 0 <= i < |events| ==> Enabled(states[i], events[i]) && states[i + 1] == Do(states[i], events[i])
  }

  lemma {:induction false} EveryReachableStateIsSound(states: seq<State>, events: seq<Event>, n: nat)
    requires IsRun(states, events) && n < |states|
    ensures Inv(states[n])
  {
    if n == 0 {
    } else {
      EveryReachableStateIsSound(states, events, n - 1);
      InvKept(states[n - 1], events[n - 1]);
    }
  }

  /** No wake-up is lost: in every reachable state in which the loop is in poll and a functor
      is waiting, the eventfd is readable or some caller stands between its push and its
      `wakeup`, unless the loop thread itself queued outside `loop()` and no pass was made
      since. Likewise for `quit` once the loop runs. */
  lemma NoWakeupLost(states: seq<State>, events: seq<Event>, n: nat)
    requires IsRun(states, events) && n < |states| && states[n].loop.Polling?
    requires (states[n].pending != [] && !states[n].early) || states[n].quit
    ensures states[n].counter > 0 || exists t: Thread :: CallerOf(states[n], t).Wake?
  {
    EveryReachableStateIsSound(states, events, n);
  }

  /** Without a call from outside `loop()` by the loop thread, the exception never arises. */
  lemma {:induction false} EarlyOnlyFromOutside(states: seq<State>, events: seq<Event>, n: nat)
    requires IsRun(states, events) && n < |states|
    requires forall i :: 0 <= i < n ==> !(events[i].LoopQueue? && states[i].loop.Outside?)
    ensures !states[n].early
  {
    if n == 0 {
    } else {
      EarlyOnlyFromOutside(states, events, n - 1);
    }
  }

  /** And such a call adds nothing to wake the loop: from any state outside `loop()`, a functor
      queued by the loop thread is waiting when the loop comes to poll, and a wake-up is due
      then exactly if one was due, for other reasons, before. */
  lemma QueuedOutsideWakesNobody(s: State, f: Functor)
    requires Inv(s) && s.loop.Outside?
    ensures var s' := Do(Do(Do(s, LoopQueue(f)), Start), Loop(false));
            && s'.loop.Polling? && s'.pending == s.pending + [f] && s'.early
            && (WakeDue(s') <==> WakeDue(s))
  {
    var s' := Do(Do(Do(s, LoopQueue(f)), Start), Loop(false));
    assert s'.callers == s.callers && s'.counter == s.counter;
    assert forall t: Thread :: CallerOf(s', t) == CallerOf(s, t);
  }

  /** So in a fresh loop the functor is left waiting, with the loop asleep and nothing due to
      wake it. */
  lemma EarlyFunctorSleeps(f: Functor)
    ensures exists states: seq<State>, events: seq<Event> ::
              && IsRun(states, events) && |events| == 3
              && states[3].loop.Polling? && states[3].pending == [f] && !WakeDue(states[3])
  {
    QueuedOutsideWakesNobody(INIT, f);
    var s1 := Do(INIT, LoopQueue(f));
    var s2 := Do(s1, Start);
    var s3 := Do(s2, Loop(false));
    var states, events := [INIT, s1, s2, s3], [LoopQueue(f), Start, Loop(false)];
    assert IsRun(states, events);
    assert states[3] == s3 && s3.pending == [f];
  }

  /** What thread t has been called for and not yet begun, by the events alone. */
  function Asked(events: seq<Event>, n: nat, t: Thread): CallerPc
    requires n <= |events|
  {
    if n == 0 then Idle
    else
      match events[n - 1]
      case Call(u, op) => if u == t then op else Asked(events, n - 1, t)
      case Step(u) => if u == t then Idle else Asked(events, n - 1, t)
      case _ => Asked(events, n - 1, t)
  }

  /** All functors given to `queueInLoop` within n events, by the loop thread or by others that
      have got past its mutex, in that order. */
  function Given(events: seq<Event>, n: nat): seq<Functor>
    requires n <= |events|
  {
    if n == 0 then []
    else Given(events, n - 1) +
         match events[n - 1]
         case LoopQueue(f) => [f]
         case Step(t) => if Asked(events, n - 1, t).Push? then [Asked(events, n - 1, t).f] else []
         case _ => []
  }

  /** A caller begins with what it was called for, and after that has at most its wake-up to do. */
  predicate BeginsWith(p: CallerPc, asked: CallerPc) { if asked.Idle? then p.Idle? || p.Wake? else p == asked && !p.Wake? }

  lemma {:induction false} CallerBeginsAsked(states: seq<State>, events: seq<Event>, n: nat, t: Thread)
    requires IsRun(states, events) && n < |states|
    ensures BeginsWith(CallerOf(states[n], t), Asked(events, n, t))
  {
    if n == 0 {
    } else {
      CallerBeginsAsked(states, events, n - 1, t);
      assert Enabled(states[n - 1], events[n - 1]);
    }
  }

  lemma QueueStep(s: State, e: Event, asked: CallerPc)
    requires Enabled(s, e) && (e.Step? ==> BeginsWith(CallerOf(s, e.t), asked))
    ensures Do(s, e).queued ==
            s.queued + (if e.LoopQueue? then [e.f] else if e.Step? && asked.Push? then [asked.f] else [])
  {
    assert s.queued + [] == s.queued;
  }

  lemma {:induction false} QueuedIsGiven(states: seq<State>, events: seq<Event>, n: nat)
    requires IsRun(states, events) && n < |states|
    ensures states[n].queued == Given(events, n)
  {
    hide Do, Enabled, BeginsWith;
    if n == 0 {
    } else {
      var e := events[n - 1];
      QueuedIsGiven(states, events, n - 1);
      if e.Step? { CallerBeginsAsked(states, events, n - 1, e.t); }
      QueueStep(states[n - 1], e, if e.Step? then Asked(events, n - 1, e.t) else Idle);
    }
  }

  /** Each functor given to `queueInLoop` runs at most once and in the order of queueing, and none
      is lost: what ran, what the current pass has taken and what waits are, together, all of
      them. */
  lemma RanInQueueOrder(states: seq<State>, events: seq<Event>, n: nat)
    requires IsRun(states, events) && n < |states|
    ensures Given(events, n) == states[n].ran + Taken(states[n].loop) + states[n].pending
  {
    EveryReachableStateIsSound(states, events, n);
    QueuedIsGiven(states, events, n);
  }

  /** The counter of the eventfd never exceeds what it can hold, however many wake-ups come before
      the loop reads it. */
  lemma {:induction false} CounterInRange(states: seq<State>, events: seq<Event>, n: nat)
    requires IsRun(states, events) && n < |states|
    ensures states[n].counter <= COUNTER_MAX
  {
    if n == 0 {
    } else {
      CounterInRange(states, events, n - 1);
      assert Enabled(states[n - 1], events[n - 1]);
    }
  }

  /** A call from another thread is through in two steps of its own and leaves the eventfd
      readable. */
  lemma CallEndsWithWakeup(s: State, t: Thread)
    requires !CallerOf(s, t).Idle? && !CallerOf(s, t).Wake?
    ensures var s' := DoCaller(DoCaller(s, t), t); CallerOf(s', t).Idle? && s'.counter > 0
  {
  }

  /** What `runInLoop` was given on the loop thread. */
  function GivenToRun(events: seq<Event>, n: nat): seq<Functor>
    requires n <= |events|
  {
    if n == 0 then [] else GivenToRun(events, n - 1) + if events[n - 1].LoopRun? then [events[n - 1].f] else []
  }

  /** It runs at once, without waiting for what is queued. */
  lemma {:induction false} RanDirectly(states: seq<State>, events: seq<Event>, n: nat)
    requires IsRun(states, events) && n < |states|
    ensures states[n].direct == GivenToRun(events, n)
  {
    if n == 0 {
    } else {
      RanDirectly(states, events, n - 1);
      assert Enabled(states[n - 1], events[n - 1]);
    }
  }

  /** Event k sets the flag of `quit`. */
  predicate Quits(events: seq<Event>, k: nat)
    requires k < |events|
  {
    events[k].LoopQuit? || (events[k].Step? && Asked(events, k, events[k].t).SetQuit?)
  }

  lemma QuitStep(s: State, e: Event, asked: CallerPc)
    requires Enabled(s, e) && (e.Step? ==> BeginsWith(CallerOf(s, e.t), asked))
    ensures Do(s, e).quit <==> e.LoopQuit? || (e.Step? && asked.SetQuit?) || (s.quit && !e.Start?)
  {
  }

  /** `quit` was called, by whomever, since `loop` was entered last. */
  ghost predicate QuitCalled(events: seq<Event>, n: nat)
    requires n <= |events|
  {
    exists k :: 0 <= k < n && Quits(events, k) && forall i :: k < i < n ==> !events[i].Start?
  }

  lemma QuitCalledSoFar(events: seq<Event>, n: nat)
    requires 0 < n <= |events|
    ensures QuitCalled(events, n) <==> Quits(events, n - 1) || (QuitCalled(events, n - 1) && !events[n - 1].Start?)
  {
    if QuitCalled(events, n - 1) && !events[n - 1].Start? {
      var k :| 0 <= k < n - 1 && Quits(events, k) && forall i :: k < i < n - 1 ==> !events[i].Start?;
      assert forall i :: k < i < n ==> !events[i].Start?;
    }
  }

  /** The flag is up exactly then. */
  lemma {:induction false} QuitIsRemembered(states: seq<State>, events: seq<Event>, n: nat)
    requires IsRun(states, events) && n < |states|
    ensures states[n].quit <==> QuitCalled(events, n)
  {
    hide Do, Enabled, BeginsWith, QuitCalled;
    if n == 0 {
      NoQuitAtFirst(events);
    } else {
      QuitIsRemembered(states, events, n - 1);
      var e := events[n - 1];
      if e.Step? { CallerBeginsAsked(states, events, n - 1, e.t); }
      QuitStep(states[n - 1], e, if e.Step? then Asked(events, n - 1, e.t) else Idle);
      QuitCalledSoFar(events, n);
    }
  }

  lemma NoQuitAtFirst(events: seq<Event>)
    ensures !QuitCalled(events, 0)
  {
  }

  lemma StepGrowsHistory(s: State, e: Event)
    requires Enabled(s, e)
    ensures s.queued <= Do(s, e).queued && s.ran <= Do(s, e).ran
  {
  }

  lemma PrefixThrough(a: seq<Functor>, b: seq<Functor>, c: seq<Functor>)
    requires a <= b && b <= c
    ensures a <= c
  {
  }

  /** What was queued and what ran are never taken back. */
  lemma {:induction false} HistoryGrows(states: seq<State>, events: seq<Event>, i: nat, j: nat)
    requires IsRun(states, events) && i <= j < |states|
    ensures states[i].queued <= states[j].queued && states[i].ran <= states[j].ran
  {
    if i == j {
    } else {
      HistoryGrows(states, events, i, j - 1);
      var s, s' := states[j - 1], states[j];
      assert Enabled(s, events[j - 1]) && s' == Do(s, events[j - 1]);
      StepGrowsHistory(s, events[j - 1]);
      PrefixThrough(states[i].queued, s.queued, s'.queued);
      PrefixThrough(states[i].ran, s.ran, s'.ran);
    }
  }

  /** `read` in `handleRead` always finds 8 bytes to read: nobody else takes the count. */
  lemma HandleReadFindsCount(states: seq<State>, events: seq<Event>, n: nat)
    requires IsRun(states, events) && n < |states| && states[n].loop.Handling? && states[n].loop.wakeActive
    ensures states[n].counter > 0
  {
    EveryReachableStateIsSound(states, events, n);
  }

  // ---------------------------------------------------------------------------
  // A pass drains the queue
  // ---------------------------------------------------------------------------

  /** The loop thread alone, for a number of its own steps. */
  function Alone(s: State, steps: nat): State
    decreases steps
  {
    if steps == 0 || s.loop.Outside? then s else Alone(DoLoop(s), steps - 1)
  }

  lemma {:induction false} FinishesFunctors(s: State)
    requires s.loop.Running? && !s.loop.owes && s.loop.next <= |s.loop.functors|
    ensures var rest := s.loop.functors[s.loop.next..];
            Alone(s, |rest| + 1) == s.(ran := s.ran + rest, calling := false, loop := Test)
    decreases |s.loop.functors| - s.loop.next
  {
    var rest := s.loop.functors[s.loop.next..];
    var s' := DoLoop(s);
    if rest == [] {
      assert Alone(s, 1) == Alone(s', 0);
      assert s.ran + rest == s.ran;
    } else {
      FinishesFunctors(s');
      assert rest == [rest[0]] + s'.loop.functors[s'.loop.next..];
      assert s.ran + rest == (s.ran + [rest[0]]) + s'.loop.functors[s'.loop.next..];
    }
  }

  /** Once the eventfd is readable, the loop left to itself runs everything that is waiting,
      in order, within |pending| + 5 of its own steps from poll; and then it sees a `quit`. */
  lemma WokenLoopDrains(s: State)
    requires Inv(s) && s.loop.Polling? && s.counter > 0
    ensures var s' := Alone(s, 4 + |s.pending| + 1);
            && s'.loop.Test? && s'.pending == [] && s'.ran == s.ran + s.pending == s.queued && s'.counter == 0
            && DoLoop(s').loop == if s.quit then Outside else Polling
  {
    var s1 := DoLoop(s);
    var s2 := DoLoop(s1);
    var s3 := DoLoop(s2);
    var s4 := DoLoop(s3);
    var n := |s.pending| + 1;
    assert Alone(s, 4 + n) == Alone(s1, 3 + n) == Alone(s2, 2 + n) == Alone(s3, 1 + n) == Alone(s4, n);
    assert s4.loop == Running(s.pending, 0, false) && s.pending[0..] == s.pending;
    FinishesFunctors(s4);
    assert s.queued == s.ran + [] + s.pending;
  }
}
