/**
 The database task queue: producers, one worker thread, threads that flush, and shutdown, as steps
 that interleave.  A step is what happens while the lock is held, or one look at shared state.
 */
module TaskQueue {

  type Task = nat

  datatype ThreadState = Up | Closing | Terminated

  /** Where the worker is: at the loop test, about to take the lock, waiting, woken up, running a task, or gone. */
  datatype Worker = AtTest | AtLock | Waiting | Woken | Working(task: Task) | Gone

  /** How far shutdown has got: not called, flushing, about to notify, returned. */
  datatype Shutdown = NotYet | Flushing | Notifying | Returned

  /** `out` are the tasks taken from the queue, in order; `signals` the notifications about to be sent. */
  datatype State = State(
    mode: ThreadState, queue: seq<Task>, accepted: seq<Task>, out: seq<Task>, signals: nat, worker: Worker, shutdown: Shutdown)

  const START := State(Up, [], [], [], 0, AtTest, NotYet)

  datatype Step =
    | AddTask(t: Task)     // addTask, under the lock
    | Notify               // its notify_one, behind the lock
    | Test                 // the worker looks at the thread state
    | Lock                 // the worker takes the lock, and a task or a rest
    | Awake                // the worker has the lock back after waiting
    | Done                 // the worker has run its task
    | FlushOne             // one turn of flush, by any thread
    | Stop                 // stop
    | ShutDown             // shutdown marks the end
    | FlushLast            // shutdown's flush finds the queue empty
    | LastNotify           // shutdown notifies
    | Spurious             // a wake-up nobody asked for

  function Popped(s: State): State
    requires s.queue != []
  {
    s.(queue := s.queue[1..], out := s.out + [s.queue[0]])
  }

  function Delivered(s: State): State {
    if s.worker.Waiting? then s.(worker := Woken) else s
  }

  predicate Enabled(s: State, step: Step) {
    match step
    case AddTask(_) => true
    case Notify => s.signals > 0
    case Test => s.worker.AtTest?
    case Lock => s.worker.AtLock?
    case Awake => s.worker.Woken?
    case Done => s.worker.Working?
    case FlushOne => s.queue != []
    case Stop => s.mode.Up?
    case ShutDown => s.shutdown.NotYet?
    case FlushLast => s.shutdown.Flushing? && s.queue == []
    case LastNotify => s.shutdown.Notifying?
    case Spurious => s.worker.Waiting?
  }

  function Next(s: State, step: Step): State
    requires Enabled(s, step)
  {
    match step
    case AddTask(t) =>
      if s.mode.Up? then
        s.(queue := s.queue + [t], accepted := s.accepted + [t], signals := s.signals + if s.queue == [] then 1 else 0)
      else s
    case Notify => Delivered(s.(signals := s.signals - 1))
    case Test => s.(worker := if s.mode.Terminated? then Gone else AtLock)
    case Lock => if s.queue == [] then s.(worker := Waiting) else Popped(s).(worker := Working(s.queue[0]))
    case Awake => if s.queue == [] then s.(worker := AtTest) else Popped(s).(worker := Working(s.queue[0]))
    case Done => s.(worker := AtTest)
    case FlushOne => Popped(s)
    case Stop => s.(mode := Closing)
    case ShutDown => s.(mode := Terminated, shutdown := Flushing)
    case FlushLast => s.(shutdown := Notifying)
    case LastNotify => Delivered(s.(shutdown := Returned))
    case Spurious => s.(worker := Woken)
  }

  /** Some steps, those that are not enabled left out. */
  function Run(s: State, steps: seq<Step>): State
    decreases |steps|
  {
    if steps == [] then s
    else
      var before, last := Run(s, steps[..|steps|-1]), steps[|steps|-1];
      if Enabled(before, last) then Next(before, last) else before
  }

  // ----- what always holds -----

  /**
   What was accepted is what has been taken followed by what is still there; a waiting worker is
   about to be notified if there is anything to do; and shutdown's progress means what it says.
   */
  predicate Inv(s: State) {
    && s.accepted == s.out + s.queue
    && (s.worker.Waiting? && s.queue != [] ==> s.signals > 0)
    && (!s.shutdown.NotYet? <==> s.mode.Terminated?)
    && (s.shutdown.Notifying? || s.shutdown.Returned? ==> s.queue == [])
    && (s.worker.Gone? ==> s.mode.Terminated?)
  }

  lemma NextKeeps(s: State, step: Step)
    requires Inv(s) && Enabled(s, step)
    ensures Inv(Next(s, step))
    ensures s.out <= Next(s, step).out && s.accepted <= Next(s, step).accepted
    ensures !s.mode.Up? ==> Next(s, step).accepted == s.accepted && !Next(s, step).mode.Up?
    ensures s.shutdown.Notifying? || s.shutdown.Returned? ==> Next(s, step).queue == []
  {
  }

  /**
   First in, first out, exactly once, over every interleaving: what has left the queue is always the
   beginning of what was accepted, and the rest is still there.
   */
  lemma {:induction false} FirstInFirstOut(steps: seq<Step>)
    ensures Inv(Run(START, steps))
    ensures var n := Run(START, steps);
            |n.out| + |n.queue| == |n.accepted| && n.out == n.accepted[..|n.out|] && n.queue == n.accepted[|n.out|..]
    decreases |steps|
  {
    if steps != [] {
      var before, last := Run(START, steps[..|steps|-1]), steps[|steps|-1];
      FirstInFirstOut(steps[..|steps|-1]);
      if Enabled(before, last) {
        NextKeeps(before, last);
      }
    }
  }

  /** Once the queue is no longer up nothing more is accepted; once shutdown's flush is over it stays empty. */
  lemma {:induction false} NothingAfterTheEnd(steps: seq<Step>, more: seq<Step>)
    ensures var s, n := Run(START, steps), Run(Run(START, steps), more);
            && (!s.mode.Up? ==> n.accepted == s.accepted && !n.mode.Up?)
            && (s.shutdown.Notifying? || s.shutdown.Returned? ==> n.queue == [] && (n.shutdown.Notifying? || n.shutdown.Returned?))
            && s.out <= n.out && Inv(n)
    decreases |more|
  {
    FirstInFirstOut(steps);
    var s := Run(START, steps);
    if more != [] {
      var before, last := Run(s, more[..|more|-1]), more[|more|-1];
      NothingAfterTheEnd(steps, more[..|more|-1]);
      if Enabled(before, last) {
        NextKeeps(before, last);
      }
    }
  }

  // ----- does the worker end? -----

  /** Nobody will notify any more, and the worker can no longer come to a rest. */
  predicate Ending(s: State) {
    s.mode.Terminated? && s.queue == [] && s.shutdown.Returned? && !s.worker.AtLock? && !s.worker.Waiting?
  }

  /** Nobody will notify any more, and the worker waits or is about to. */
  predicate Stranded(s: State) {
    s.mode.Terminated? && s.queue == [] && s.shutdown.Returned? && s.signals == 0 && (s.worker.AtLock? || s.worker.Waiting?)
  }

  /** How many steps of its own the worker is away from its end. */
  function Distance(s: State): nat {
    match s.worker
    case Gone => 0
    case AtTest => 1
    case Woken => 2
    case Working(_) => 2
    case AtLock => 4
    case Waiting => 3
  }

  lemma EndingStays(s: State, step: Step)
    requires Ending(s) && Enabled(s, step)
    ensures Ending(Next(s, step)) && Distance(Next(s, step)) <= Distance(s)
    ensures step in [Test, Awake, Done] ==> Distance(Next(s, step)) < Distance(s)
  {
  }

  lemma StrandedStays(s: State, step: Step)
    requires Stranded(s) && Enabled(s, step) && !step.Spurious?
    ensures Stranded(Next(s, step))
  {
  }

  /** From an ending state the worker always has a step of its own, and after two of them it is gone. */
  lemma EndingEnds(s: State)
    requires Ending(s)
    ensures s.worker.Gone? || exists step :: step in [Test, Awake, Done] && Enabled(s, step)
  {
    assert Enabled(s, Test) || Enabled(s, Awake) || Enabled(s, Done) || s.worker.Gone?;
    assert Test in [Test, Awake, Done] && Awake in [Test, Awake, Done] && Done in [Test, Awake, Done];
  }

  lemma {:induction false} StrandedForEver(s: State, steps: seq<Step>)
    requires Stranded(s) && Spurious !in steps
    ensures Stranded(Run(s, steps))
    decreases |steps|
  {
    if steps != [] {
      var before, last := Run(s, steps[..|steps|-1]), steps[|steps|-1];
      StrandedForEver(s, steps[..|steps|-1]);
      assert last in steps;
      if Enabled(before, last) {
        StrandedStays(before, last);
      }
    }
  }

  lemma {:induction false} EndingForEver(s: State, steps: seq<Step>)
    requires Ending(s)
    ensures Ending(Run(s, steps))
    decreases |steps|
  {
    if steps != [] {
      var before, last := Run(s, steps[..|steps|-1]), steps[|steps|-1];
      EndingForEver(s, steps[..|steps|-1]);
      if Enabled(before, last) {
        EndingStays(before, last);
      }
    }
  }

  /** Shutdown has returned while the worker is between looking at the thread state and taking the lock. */
  predicate Overtaken(s: State) {
    s.mode.Terminated? && s.queue == [] && s.shutdown.Returned? && s.worker.AtLock?
  }

  /**
   At shutdown's own notification it depends on one thing whether the worker is sure to end: whether
   it is just then between looking at the thread state and taking the lock.  If it is, it is lost at
   once exactly if no notification of an earlier task is still to be sent.
   */
  lemma LastNotifyDecides(steps: seq<Step>)
    requires Enabled(Run(START, steps), LastNotify)
    ensures var s := Run(START, steps);
            var n := Next(s, LastNotify);
            && (Ending(n) <==> !s.worker.AtLock?) && (Overtaken(n) <==> s.worker.AtLock?)
            && (Stranded(n) <==> s.worker.AtLock? && s.signals == 0)
  {
    FirstInFirstOut(steps);
  }

  /** Notifications still to be sent can all come too early ... */
  lemma {:induction false} OvertakenCanMiss(s: State, steps: seq<Step>)
    requires Overtaken(s) && |steps| <= s.signals && forall k :: 0 <= k < |steps| ==> steps[k] == Notify
    ensures Run(s, steps) == s.(signals := s.signals - |steps|)
    ensures |steps| == s.signals ==> Stranded(Run(s, steps))
    decreases |steps|
  {
    if steps != [] {
      OvertakenCanMiss(s, steps[..|steps|-1]);
    }
  }

  /** ... and any of them can come in time. */
  lemma OvertakenCanEnd(s: State)
    requires Overtaken(s) && s.signals > 0
    ensures Ending(Run(s, [Lock, Notify]))
  {
    assert [Lock, Notify][..1] == [Lock] && [Lock][..0] == [];
    assert Run(s, [Lock]) == s.(worker := Waiting);
  }

  /** It does happen: the worker looks, shutdown runs from beginning to end, the worker goes to rest for good. */
  lemma ShutdownCanBeMissed(more: seq<Step>)
    requires Spurious !in more
    ensures var steps := [Test, ShutDown, FlushLast, LastNotify];
            Run(START, steps).worker.AtLock? && Stranded(Run(START, steps))
            && !Run(Run(START, steps), more).worker.Gone?
  {
    var s1 := Run(START, []);
    assert [Test][..0] == [];
    var s2 := Run(START, [Test]);
    assert [Test, ShutDown][..1] == [Test];
    var s3 := Run(START, [Test, ShutDown]);
    assert [Test, ShutDown, FlushLast][..2] == [Test, ShutDown];
    var s4 := Run(START, [Test, ShutDown, FlushLast]);
    assert [Test, ShutDown, FlushLast, LastNotify][..3] == [Test, ShutDown, FlushLast];
    StrandedForEver(Run(START, [Test, ShutDown, FlushLast, LastNotify]), more);
  }

  // ----- the program -----

  /** The shared fields, and what happens to them while the lock is held. */
  class DatabaseTasks {
    var threadState: ThreadState
    var tasks: seq<Task>
    ghost var accepted: seq<Task>
    ghost var out: seq<Task>

    ghost predicate Valid()
      reads this
    {
      accepted == out + tasks
    }

    /** The object is in this state of the interleavings, as far as the fields say. */
    ghost predicate Shows(s: State)
      reads this
    {
      s.mode == threadState && s.queue == tasks && s.accepted == accepted && s.out == out
    }

    constructor ()
      ensures Shows(START)
      ensures Valid() && threadState.Up? && tasks == [] && accepted == [] && out == []
    {
      threadState, tasks, accepted, out := Up, [], [], [];
    }

    /** The locked part of `addTask`; whether to notify is decided there. */
    method Add(t: Task) returns (signal: bool)
      requires Valid()
      modifies this
      ensures Valid() && threadState == old(threadState) && out == old(out)
      ensures old(threadState).Up? ==> accepted == old(accepted) + [t] && (signal <==> old(tasks) == [])
      ensures !old(threadState).Up? ==> accepted == old(accepted) && !signal
      ensures forall s :: old(Shows(s)) ==>
                Shows(Next(s, AddTask(t))) && Next(s, AddTask(t)).signals == s.signals + if signal then 1 else 0
    {
      signal := false;
      if threadState.Up? {
        signal := tasks == [];
        tasks, accepted := tasks + [t], accepted + [t];
      }
    }

    /** The locked part of the worker's loop and of `flush`: the first task, if there is one. */
    method TakeFirst() returns (some: bool, t: Task)
      requires Valid()
      modifies this
      ensures Valid() && threadState == old(threadState) && accepted == old(accepted)
      ensures some <==> |old(out)| < |accepted|
      ensures if some then t == accepted[|old(out)|] && out == accepted[..|old(out)| + 1] else out == old(out) && tasks == []
      ensures forall s :: old(Shows(s)) ==> (some <==> Enabled(s, FlushOne)) && (some ==> Shows(Next(s, FlushOne)))
      ensures forall s :: old(Shows(s)) && s.worker.AtLock? ==>
                Shows(Next(s, Lock)) && Next(s, Lock).worker == if some then Working(t) else Waiting
      ensures forall s :: old(Shows(s)) && s.worker.Woken? ==>
                Shows(Next(s, Awake)) && Next(s, Awake).worker == if some then Working(t) else AtTest
    {
      some, t := tasks != [], 0;
      if some {
        t := tasks[0];
        tasks, out := tasks[1..], out + [t];
      }
    }

    /** `flush` without anybody interfering: the queue is emptied in order. */
    method Flush() returns (ran: seq<Task>)
      requires Valid()
      modifies this
      ensures Valid() && threadState == old(threadState) && accepted == old(accepted)
      ensures tasks == [] && ran == old(tasks) && out == accepted
    {
      ran := [];
      while tasks != []
        invariant Valid() && threadState == old(threadState) && accepted == old(accepted)
        invariant ran + tasks == old(tasks)
        decreases |tasks|
      {
        var _, task := TakeFirst();
        ran := ran + [task];
      }
    }

    /** The first part of `shutdown`: what is in the queue stays there, and `Add` accepts nothing from now on. */
    method Terminate()
      requires Valid()
      modifies this`threadState
      ensures Valid() && threadState.Terminated?
      ensures forall s :: old(Shows(s)) && s.shutdown.NotYet? ==> Shows(Next(s, Step.ShutDown))
    {
      threadState := Terminated;
    }

    /**
     `shutdown` without anybody interfering, up to its notification: all that was ever accepted has
     left in the order of acceptance, what was still there last, and nothing can follow.
     */
    method ShutDown() returns (ran: seq<Task>)
      requires Valid()
      modifies this
      ensures Valid() && !threadState.Up? && accepted == old(accepted)
      ensures out == accepted && out == old(out) + ran && ran == old(tasks) && tasks == []
    {
      Terminate();
      ran := Flush();
    }
  }

  /** After `stop` nothing is accepted any more, but the worker goes on, and what is in the queue stays there. */
  lemma StopRefuses(s: State, t: Task)
    requires Enabled(s, Stop)
    ensures var n := Next(s, Stop);
            && Next(n, AddTask(t)) == n && n.queue == s.queue && n.accepted == s.accepted && n.out == s.out
            && n.worker == s.worker && n.shutdown == s.shutdown && n.signals == s.signals
            && (n.worker.AtTest? ==> Next(n, Test).worker.AtLock?)
  {
  }
}
