/**
 * The cross-thread run queue of fdevent.cpp: any thread submits closures, the main thread runs them.
 * Each step is one critical section under run_queue_mutex, or the read of the notify socket.
 */
module RunQueue {
  import opened AdbBase

  /** A closure, told apart by a number. */
  type Closure = nat

  const READ_SIZE: nat := 1024

  /** `hasRead` is set while the main thread is between its read and its flush. */
  datatype State = State(queue: seq<Closure>, setUp: bool, unread: nat, hasRead: bool, submitted: seq<Closure>, executed: seq<Closure>)

  datatype Step = Submit(f: Closure) | SetUp | ReadNotify | Flush

  const START := State([], false, 0, false, [], [])

  predicate CanTake(s: State, step: Step) {
    match step
    case Submit(_) => true
    case SetUp => !s.setUp
    case ReadNotify => s.setUp && !s.hasRead && s.unread > 0
    case Flush => s.hasRead
  }

  function Next(s: State, step: Step): State {
    if !CanTake(s, step) then s
    else match step
      case Submit(f) =>
        s.(queue := s.queue + [f], submitted := s.submitted + [f], unread := if s.setUp then s.unread + 1 else s.unread)
      case SetUp => s.(setUp := true, executed := s.executed + s.queue, queue := [])
      case ReadNotify => s.(unread := s.unread - Min(s.unread, READ_SIZE), hasRead := true)
      case Flush => s.(hasRead := false, executed := s.executed + s.queue, queue := [])
  }

  /** Any interleaving of submitters, start-up and the loop. */
  function Run(steps: seq<Step>): State {
    if steps == [] then START else Next(Run(steps[..|steps| - 1]), steps[|steps| - 1])
  }

  predicate Sound(s: State) {
    && s.submitted == s.executed + s.queue
    && (s.hasRead ==> s.setUp)
    && (s.queue != [] ==> !s.setUp || s.unread > 0 || s.hasRead)
    && (s.unread <= |s.submitted|)
  }

  lemma NextSound(s: State, step: Step)
    requires Sound(s)
    ensures Sound(Next(s, step))
    ensures s.submitted <= Next(s, step).submitted && s.executed <= Next(s, step).executed
  {
  }

  /** No wake-up is lost: whatever waits has a start-up, an unread byte or a flush still to come. */
  lemma {:induction false} NoLostWakeUp(steps: seq<Step>)
    ensures var s := Run(steps);
            s.queue != [] ==> !s.setUp || s.unread > 0 || s.hasRead
    ensures Sound(Run(steps))
  {
    if steps != [] {
      NoLostWakeUp(steps[..|steps| - 1]);
      NextSound(Run(steps[..|steps| - 1]), steps[|steps| - 1]);
    }
  }

  /** Over any stretch of any run each closure runs once, in the order of submission. */
  lemma {:induction false} OnceInOrder(steps: seq<Step>, n: nat)
    requires n <= |steps|
    ensures Run(steps).submitted == Run(steps).executed + Run(steps).queue
    ensures Run(steps[..n]).executed <= Run(steps).executed
    ensures Run(steps[..n]).submitted <= Run(steps).submitted
    decreases |steps|
  {
    NoLostWakeUp(steps);
    if n == |steps| {
      assert steps[..n] == steps;
    } else {
      var before := steps[..|steps| - 1];
      assert before[..n] == steps[..n];
      OnceInOrder(before, n);
      NoLostWakeUp(before);
      NextSound(Run(before), steps[|steps| - 1]);
    }
  }

  /** The closures some steps submit. */
  function Submitted(steps: seq<Step>): seq<Closure> {
    if steps == [] then []
    else Submitted(steps[..|steps| - 1]) + (match steps[|steps| - 1] case Submit(f) => [f] case _ => [])
  }

  lemma {:induction false} SubmittedInOrder(steps: seq<Step>)
    ensures Run(steps).submitted == Submitted(steps)
  {
    if steps != [] {
      SubmittedInOrder(steps[..|steps| - 1]);
    }
  }

  /** What the main thread does next, if it has anything to do. */
  function MainStep(s: State): Option<Step> {
    if !s.setUp then Some(SetUp)
    else if s.hasRead then Some(Flush)
    else if s.unread > 0 then Some(ReadNotify)
    else None
  }

  /** While a closure waits the main thread can move, and two moves later everything waiting now has run. */
  lemma {:induction false} WaitingGetsRun(steps: seq<Step>)
    requires Run(steps).queue != []
    ensures var s := Run(steps);
            && MainStep(s).Some? && CanTake(s, MainStep(s).value)
            && var s1 := Next(s, MainStep(s).value);
               s1.executed == s.submitted
               || (MainStep(s1) == Some(Flush) && CanTake(s1, Flush) && Next(s1, Flush).executed == s.submitted)
  {
    NoLostWakeUp(steps);
  }

  class Queue {
    /** run_queue; whether run_queue_notify_fd is set; bytes written to it and not yet read. */
    var runQueue: seq<Closure>
    var notifyFd: bool
    var unread: nat
    var hasRead: bool
    ghost var submitted: seq<Closure>
    var executed: seq<Closure>

    ghost function St(): State
      reads this
    {
      State(runQueue, notifyFd, unread, hasRead, submitted, executed)
    }

    constructor ()
      ensures St() == START
    {
      runQueue, notifyFd, unread, hasRead, executed := [], false, 0, false, [];
      submitted := [];
    }

    /** fdevent_run_flush: a closure that submitted another would deadlock, so none does. */
    method RunFlush()
      modifies this`runQueue, this`executed
      ensures runQueue == [] && executed == old(executed) + old(runQueue)
    {
      for i := 0 to |runQueue|
        invariant runQueue == old(runQueue) && executed == old(executed) + runQueue[..i]
      {
        executed := executed + [runQueue[i]];
      }
      runQueue := [];
    }

    /** fdevent_run_on_main_thread. */
    method RunOnMainThread(f: Closure)
      modifies this
      ensures St() == Next(old(St()), Submit(f))
    {
      runQueue := runQueue + [f];
      submitted := submitted + [f];
      if notifyFd {
        unread := unread + 1;
      }
    }

    /** fdevent_run_setup. */
    method RunSetup()
      requires !notifyFd
      modifies this
      ensures St() == Next(old(St()), SetUp)
    {
      notifyFd := true;
      RunFlush();
    }

    /** The read of fdevent_run_func, called once poll has seen a byte. */
    method EmptyNotifyFd()
      requires notifyFd && unread > 0 && !hasRead
      modifies this
      ensures St() == Next(old(St()), ReadNotify)
    {
      unread := if unread <= READ_SIZE then 0 else unread - READ_SIZE;
      hasRead := true;
    }

    /** The rest of fdevent_run_func, under the lock. */
    method RunFunc()
      requires hasRead
      modifies this
      ensures St() == Next(old(St()), Flush)
    {
      RunFlush();
      hasRead := false;
    }
  }
}
