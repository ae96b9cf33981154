/** `muduo::Condition`: who waits on a condition variable, and who has been signalled and not
    yet got the mutex back. */
module Condition {
  type Thread = nat

  datatype Condition = Condition(waiting: set<Thread>, signalled: set<Thread>)

  const NOBODY: Condition := Condition({}, {})

  /** `wait`, up to the point where the mutex is released. */
  function Wait(c: Condition, t: Thread): Condition { c.(waiting := c.waiting + {t}) }

  /** A wake-up of `target` for no reason. */
  function Spurious(c: Condition, target: Thread): Condition { c.(waiting := c.waiting - {target}) }

  /** A woken thread has the mutex again. */
  function Back(c: Condition, t: Thread): Condition { c.(signalled := c.signalled - {t}) }

  /** `notify` wakes one waiting thread, of the system's choice; it is lost if none waits. */
  function Notify(c: Condition, choice: Thread): Condition {
    if choice in c.waiting then Condition(c.waiting - {choice}, c.signalled + {choice}) else c
  }

  function NotifyAll(c: Condition): Condition { Condition({}, c.signalled + c.waiting) }

  predicate CanChoose(c: Condition, choice: Thread) { c.waiting != {} ==> choice in c.waiting }

  ghost predicate Valid(c: Condition) { c.waiting !! c.signalled }

  /** Waiting, signalled, or neither. */
  predicate Waits(c: Condition, t: Thread) { t in c.waiting }
  predicate InWait(c: Condition, t: Thread) { t in c.waiting || t in c.signalled }

  /** The rule behind "no lost wake-up": as long as somebody waits unsignalled, there are no
      more units of work than threads signalled for them. */
  ghost predicate Covered(c: Condition, work: int) {
    c.waiting != {} ==> work <= |c.signalled|
  }

  /** One unit more and a notification. */
  lemma NotifyCovers(c: Condition, choice: Thread, work: int)
    requires Valid(c) && CanChoose(c, choice) && Covered(c, work)
    ensures Valid(Notify(c, choice)) && Covered(Notify(c, choice), work + 1)
  {
  }

  /** A thread with the mutex takes one unit, whether it was signalled or not. */
  lemma TakingCovers(c: Condition, t: Thread, work: int)
    requires Valid(c) && Covered(c, work)
    ensures Valid(Back(c, t)) && Covered(Back(c, t), work - 1)
  {
  }

  /** A thread finds nothing and waits, again or for the first time. */
  lemma WaitingCovers(c: Condition, t: Thread, work: int)
    requires Valid(c) && work <= 0
    ensures Valid(Wait(Back(c, t), t)) && Covered(Wait(Back(c, t), t), work)
  {
  }
}
