/** The functor queue and wakeup protocol of net/EventLoopff.cpp, as interleaved atomic steps.

    A producer on another thread pushes a functor under the mutex and later writes the eventfd; the loop thread
    tests `quit_`, polls, runs its event handlers (one of which reads the eventfd), sets
    `callingPendingFunctors_`, swaps the vector under the mutex and runs the functors.  Handlers and functors
    may themselves queue functors or quit.  Any number of steps of other threads fall between two steps
    of the loop thread. */
module EventLoop {

  /** An eventfd counter stops here: a write that would pass it fails and leaves it positive. */
  const EVENTFD_MAX: nat := 0xFFFF_FFFF_FFFF_FFFE

  /** Where the loop thread is. */
  datatype Pc =
    | NotStarted
    | AtTest                   // about to test `quit_`
    | InPoll                   // in, or about to enter, `epoll_wait`
    | Handling(wake: bool)     // in event handlers; `wake`: the eventfd is reported and not yet read
    | Calling                  // `callingPendingFunctors_` set, vector not yet swapped
    | Running                  // running the swapped functors
    | Stopped

  /** `owing`: threads between their push (or `quit_=true`) and their write to the eventfd;
      `ownerOwing`: the same for a functor that queues another. */
  datatype State = State(
    pending: seq<nat>,
    quit: bool,
    calling: bool,
    counter: nat,
    pc: Pc,
    batch: seq<nat>,
    owing: set<nat>,
    ownerOwing: bool,
    executed: seq<nat>,
    enqueued: seq<nat>,
    taken: nat)                // how many functors had been enqueued at the last swap

  datatype Event =
    | Push(thread: nat, functor: nat)     // `queueInLoop` on another thread, its critical section
    | Quit(thread: nat)                   // `quit` on another thread, its assignment
    | Wakeup(thread: nat)                 // the eventfd write that follows either
    | OwnPush(functor: nat)               // `queueInLoop` on the loop thread, its critical section
    | OwnWakeup
    | OwnQuit
    | Start
    | TestQuit
    | PollReturns(wake: bool)
    | WakeupRead                          // `handleWakeupRead`
    | BeginPending
    | Swap
    | RunFunctor
    | EndPending

  /** Handlers and functors are user code of the loop thread. */
  predicate InUserCode(s: State) {
    s.pc.Handling? || s.pc.Running? || s.pc.NotStarted?
  }

  /** When a step can happen.  `epoll_wait` can return at any time, on its timeout or another channel; it
      reports the eventfd only when the counter is positive.  A thread finishes one call before it makes the
      next. */
  predicate Enabled(s: State, e: Event) {
    match e
    case Push(t, _) => t !in s.owing
    case Quit(t) => t !in s.owing && !s.quit
    case Wakeup(t) => t in s.owing
    case OwnPush(_) => InUserCode(s) && !s.ownerOwing
    case OwnWakeup => s.ownerOwing
    case OwnQuit => InUserCode(s) && !s.ownerOwing && !s.quit
    case Start => s.pc.NotStarted?
    case TestQuit => s.pc.AtTest?
    case PollReturns(wake) => s.pc.InPoll? && (wake ==> s.counter > 0)
    case WakeupRead => s.pc == Handling(true)
    case BeginPending => s.pc == Handling(false)
    case Swap => s.pc.Calling?
    case RunFunctor => s.pc.Running? && s.batch != [] && !s.ownerOwing
    case EndPending => s.pc.Running? && s.batch == [] && !s.ownerOwing
  }

  function Write(counter: nat): nat {
    if counter < EVENTFD_MAX then counter + 1 else counter
  }

  function Enqueue(s: State, f: nat): State {
    s.(pending := s.pending + [f], enqueued := s.enqueued + [f])
  }

  /** A step that is not enabled does nothing. */
  function Step(s: State, e: Event): State {
    if !Enabled(s, e) then s else
    match e
    case Push(t, f) => Enqueue(s, f).(owing := s.owing + {t})
    case Quit(t) => s.(quit := true, owing := s.owing + {t})
    case Wakeup(t) => s.(counter := Write(s.counter), owing := s.owing - {t})
    case OwnPush(f) => Enqueue(s, f).(ownerOwing := s.calling)
    case OwnWakeup => s.(counter := Write(s.counter), ownerOwing := false)
    case OwnQuit => s.(quit := true)
    case Start => s.(pc := AtTest)
    case TestQuit => s.(pc := if s.quit then Stopped else InPoll)
    case PollReturns(wake) => s.(pc := Handling(wake))
    case WakeupRead => s.(counter := 0, pc := Handling(false))
    case BeginPending => s.(calling := true, pc := Calling)
    case Swap => s.(batch := s.pending, pending := [], pc := Running, taken := |s.enqueued|)
    case RunFunctor => s.(executed := s.executed + [s.batch[0]], batch := s.batch[1..])
    case EndPending => s.(calling := false, pc := AtTest)
  }

  function Run(s: State, es: seq<Event>): State
    decreases |es|
  {
    if es == [] then s else Run(Step(s, es[0]), es[1..])
  }

  /** The loop object before `loop()` is called. */
  function Init(): State {
    State([], false, false, 0, NotStarted, [], {}, false, [], [], 0)
  }

  // ---------------------------------------------------------------- no lost wakeup

  /** The eventfd is readable, or somebody is about to make it so. */
  predicate Awake(s: State) {
    s.counter > 0 || s.owing != {} || s.ownerOwing
  }

  /** The loop never sits in poll over queued work or a quit request that nothing will wake it for. */
  predicate Safe(s: State) {
    s.pc.InPoll? && (s.pending != [] || s.quit) ==> Awake(s)
  }

  /** Where a queued functor must be covered by a wakeup: everywhere except between the eventfd read and the
      swap. */
  predicate MustBeCovered(pc: Pc) {
    pc.AtTest? || pc.InPoll? || pc.Running?
  }

  predicate Bookkeeping(s: State) {
    && (s.calling <==> s.pc.Calling? || s.pc.Running?)
    && (s.ownerOwing ==> s.pc.Running?)
    && (s.batch != [] ==> s.pc.Running?)
    && s.executed + s.batch + s.pending == s.enqueued
    && s.taken <= |s.enqueued|
    && (s.pc.Running? ==> s.executed + s.batch == s.enqueued[..s.taken])
  }

  predicate Inv(s: State) {
    && Bookkeeping(s)
    && (MustBeCovered(s.pc) && s.pending != [] ==> Awake(s) || (s.pc.AtTest? && s.quit))
    && (s.pc.InPoll? && s.quit ==> Awake(s))
  }

  lemma StepKeepsBookkeeping(s: State, e: Event)
    requires Bookkeeping(s)
    ensures Bookkeeping(Step(s, e))
  {
    if Enabled(s, e) {
      match e
      case Push(_, f) => assert s.executed + s.batch + (s.pending + [f]) == s.executed + s.batch + s.pending + [f];
      case OwnPush(f) => assert s.executed + s.batch + (s.pending + [f]) == s.executed + s.batch + s.pending + [f];
      case Swap =>
        assert s.executed + s.pending + [] == s.enqueued[..|s.enqueued|];
        assert s.batch == [];
      case RunFunctor =>
        assert s.executed + [s.batch[0]] + s.batch[1..] == s.executed + s.batch;
      case _ =>
    }
  }

  /** What `loop()` needs of its caller: the loop thread has not queued anything that no wakeup covers. */
  predicate MayStart(s: State) {
    s.quit || s.pending == [] || Awake(s)
  }

  lemma StepKeepsInv(s: State, e: Event)
    requires Inv(s) && (e.Start? && Enabled(s, e) ==> MayStart(s))
    ensures Inv(Step(s, e))
  {
    StepKeepsBookkeeping(s, e);
    if Enabled(s, e) {
      match e
      case Push(t, _) => assert t in Step(s, e).owing;
      case Quit(t) => assert t in Step(s, e).owing;
      case Wakeup(t) => assert Step(s, e).counter > 0;
      case OwnWakeup => assert Step(s, e).counter > 0;
      case _ =>
    }
  }

  /** `loop()` is called in a good state, or not called at all. */
  predicate StartsWell(s: State, es: seq<Event>)
    decreases |es|
  {
    es == [] || ((es[0].Start? && Enabled(s, es[0]) ==> MayStart(s)) && StartsWell(Step(s, es[0]), es[1..]))
  }

  lemma {:induction false} RunKeepsInv(s: State, es: seq<Event>)
    requires Inv(s) && StartsWell(s, es)
    ensures Inv(Run(s, es))
    decreases |es|
  {
    if es != [] {
      StepKeepsInv(s, es[0]);
      RunKeepsInv(Step(s, es[0]), es[1..]);
    }
  }

  lemma OnceStarted(s: State, es: seq<Event>)
    requires !s.pc.NotStarted?
    ensures StartsWell(s, es)
    decreases |es|
  {
    if es != [] {
      OnceStarted(Step(s, es[0]), es[1..]);
    }
  }

  /** In every interleaving from the start of `loop()` on, the loop is never blocked in poll over a queued
      functor or a quit request without a wakeup on its way, if and only if `loop()` was entered with no
      uncovered functor. (A functor the loop thread queues before `loop()` gets no wakeup and waits for the
      poll timeout.) */
  lemma NoLostWakeup(s: State)
    requires Bookkeeping(s) && s.pc.NotStarted?
    ensures (forall es :: Safe(Run(Step(s, Start), es))) <==> MayStart(s)
  {
    if MayStart(s) {
      StepKeepsInv(s, Start);
      forall es ensures Safe(Run(Step(s, Start), es)) {
        OnceStarted(Step(s, Start), es);
        RunKeepsInv(Step(s, Start), es);
      }
    } else {
      var es := StuckRun(s);
      assert !Safe(Run(Step(s, Start), es));
    }
  }

  lemma StuckRun(s: State) returns (es: seq<Event>)
    requires Bookkeeping(s) && s.pc.NotStarted? && !MayStart(s)
    ensures !Safe(Run(Step(s, Start), es))
  {
    es := [TestQuit];
    var stuck := Step(Step(s, Start), TestQuit);
    assert es[1..] == [];
    assert Run(stuck, es[1..]) == stuck;
    assert !Safe(stuck);
  }

  /** The condition is met whenever only other threads queue work before `loop()`: each of their calls is
      covered. */
  lemma OthersMayQueueEarly(es: seq<Event>)
    requires forall k :: 0 <= k < |es| ==> !es[k].OwnPush? && !es[k].Start?
    ensures Run(Init(), es).pc.NotStarted? && Bookkeeping(Run(Init(), es)) && MayStart(Run(Init(), es))
  {
    EarlyRun(Init(), es);
  }

  lemma {:induction false} EarlyRun(s: State, es: seq<Event>)
    requires s.pc.NotStarted? && Bookkeeping(s) && MayStart(s)
    requires forall k :: 0 <= k < |es| ==> !es[k].OwnPush? && !es[k].Start?
    ensures Run(s, es).pc.NotStarted? && Bookkeeping(Run(s, es)) && MayStart(Run(s, es))
    decreases |es|
  {
    if es != [] {
      StepKeepsBookkeeping(s, es[0]);
      var t := Step(s, es[0]);
      if es[0].Push? && Enabled(s, es[0]) {
        assert es[0].thread in t.owing;
      }
      assert forall k :: 0 <= k < |es| - 1 ==> es[1..][k] == es[k + 1];
      EarlyRun(t, es[1..]);
    }
  }

  /** Once no producer is between its push and its write, queued work makes poll return with the eventfd ready. */
  lemma QueuedWorkEndsPoll(s: State)
    requires Inv(s) && s.pc.InPoll? && (s.pending != [] || s.quit) && s.owing == {}
    ensures Enabled(s, PollReturns(true))
  {
  }

  // ---------------------------------------------------------------- exactly once, in order

  lemma LogOnlyGrows(s: State, e: Event)
    ensures s.enqueued <= Step(s, e).enqueued && s.executed <= Step(s, e).executed
  {
  }

  /** The functors given to `queueInLoop` in a run: by threads that are not in the middle of another call, and by
      user code of the loop thread. */
  function EnqueuedBy(s: State, es: seq<Event>): seq<nat>
    decreases |es|
  {
    if es == [] then []
    else
      var e := es[0];
      var now :=
        match e
        case Push(t, f) => if t !in s.owing then [f] else []
        case OwnPush(f) =>
          if (s.pc.NotStarted? || s.pc.Handling? || s.pc.Running?) && !s.ownerOwing then [f] else []
        case _ => [];
      now + EnqueuedBy(Step(s, e), es[1..])
  }

  lemma StepLogs(s: State, e: Event, later: seq<nat>)
    ensures Step(s, e).enqueued + later == s.enqueued +
      ((match e
        case Push(t, f) => if t !in s.owing then [f] else []
        case OwnPush(f) =>
          if (s.pc.NotStarted? || s.pc.Handling? || s.pc.Running?) && !s.ownerOwing then [f] else []
        case _ => []) + later)
  {
  }

  lemma {:induction false} LogOfRun(s: State, es: seq<Event>)
    ensures Run(s, es).enqueued == s.enqueued + EnqueuedBy(s, es)
    decreases |es|
  {
    if es == [] {
      assert s.enqueued + [] == s.enqueued;
    } else {
      LogOfRun(Step(s, es[0]), es[1..]);
      StepLogs(s, es[0], EnqueuedBy(Step(s, es[0]), es[1..]));
    }
  }

  /** In every interleaving the functors executed, then the rest of the batch, then the queue, are exactly those
      already enqueued and those given to `queueInLoop` since, in order: none is lost, run twice, or overtaken. */
  lemma {:induction false} ExactlyOnceInOrder(s: State, es: seq<Event>)
    requires Bookkeeping(s)
    ensures var f := Run(s, es);
            && Bookkeeping(f) && f.executed + f.batch + f.pending == f.enqueued
            && f.enqueued == s.enqueued + EnqueuedBy(s, es)
            && s.enqueued <= f.enqueued && s.executed <= f.executed
    decreases |es|
  {
    LogOfRun(s, es);
    if es != [] {
      StepKeepsBookkeeping(s, es[0]);
      LogOnlyGrows(s, es[0]);
      hide Step, Enabled;
      ExactlyOnceInOrder(Step(s, es[0]), es[1..]);
    }
  }

  predicate StaysInBatch(es: seq<Event>) {
    forall k :: 0 <= k < |es| ==> !es[k].EndPending?
  }

  /** A functor queued while a batch runs, by whatever thread, waits for a later batch: until the batch ends
      only functors taken by its swap are executed, and everything queued since the swap is still in the
      queue. */
  lemma {:induction false} QueuedDuringBatchWaits(s: State, es: seq<Event>)
    requires Bookkeeping(s) && s.pc.Running? && StaysInBatch(es)
    ensures var f := Run(s, es);
            && f.pc.Running? && f.taken == s.taken
            && f.executed + f.batch == s.executed + s.batch
            && f.taken <= |f.enqueued| && f.pending == f.enqueued[f.taken..]
    decreases |es|
  {
    if es == [] {
      assert s.executed + s.batch + s.pending == s.enqueued;
      assert |s.executed + s.batch| == s.taken;
    } else {
      StepKeepsBookkeeping(s, es[0]);
      var t := Step(s, es[0]);
      assert t.executed + t.batch == s.executed + s.batch;
      assert forall k :: 0 <= k < |es| - 1 ==> es[1..][k] == es[k + 1];
      QueuedDuringBatchWaits(t, es[1..]);
    }
  }

  // ---------------------------------------------------------------- one turn of the loop does the work

  function Repeat(e: Event, n: nat): seq<Event> {
    if n == 0 then [] else [e] + Repeat(e, n - 1)
  }

  lemma {:induction false} RunAppend(s: State, xs: seq<Event>, ys: seq<Event>)
    ensures Run(s, xs + ys) == Run(Run(s, xs), ys)
    decreases |xs|
  {
    if xs == [] {
      assert xs + ys == ys;
    } else {
      assert (xs + ys)[1..] == xs[1..] + ys;
      RunAppend(Step(s, xs[0]), xs[1..], ys);
    }
  }

  lemma {:induction false} RunsWholeBatch(s: State, n: nat)
    requires Bookkeeping(s) && s.pc.Running? && !s.ownerOwing && n == |s.batch|
    ensures Run(s, Repeat(RunFunctor, n)) == s.(executed := s.executed + s.batch, batch := [])
    decreases n
  {
    if n == 0 {
      assert s.executed + s.batch == s.executed;
    } else {
      var t := Step(s, RunFunctor);
      assert t.executed + t.batch == s.executed + s.batch;
      StepKeepsBookkeeping(s, RunFunctor);
      RunsWholeBatch(t, n - 1);
      assert Repeat(RunFunctor, n)[1..] == Repeat(RunFunctor, n - 1);
    }
  }

  /** The steps the loop thread takes by itself from a poll that reports the eventfd to its next test of `quit_`. */
  function Turn(n: nat): seq<Event> {
    ToSwap() + Repeat(RunFunctor, n) + [EndPending]
  }

  function ToSwap(): seq<Event> {
    [PollReturns(true), WakeupRead, BeginPending, Swap]
  }

  function Swapped(s: State): State {
    s.(counter := 0, calling := true, pc := Running, batch := s.pending, pending := [], taken := |s.enqueued|)
  }

  /** Work that was queued when poll can return is all executed within one turn of the loop, and the turn can happen
      as soon as the producers have made their writes. */
  lemma OneTurnRunsEverything(s: State)
    requires Inv(s) && s.pc.InPoll? && s.pending != [] && s.owing == {}
    ensures var f := Run(s, Turn(|s.pending|));
            f.pc.AtTest? && f.executed == s.enqueued && f.pending == [] && f.enqueued == s.enqueued
  {
    hide Run, Turn, ToSwap, Repeat;
    TurnSplits(s, |s.pending|);
    ReachesSwap(s);
    SwappedBookkeeping(s);
    RunsWholeBatch(Swapped(s), |s.pending|);
  }

  /** And in every interleaving: whatever user code and other threads do, once a swap and the end of its batch
      have passed, everything that was queued before the swap has been executed. */
  lemma TurnRunsWhatWasQueued(s: State, before: seq<Event>, during: seq<Event>, after: seq<Event>)
    requires Bookkeeping(s)
    requires Enabled(Run(s, before), Swap)
    requires Enabled(Run(Step(Run(s, before), Swap), during), EndPending)
    ensures var f := Run(s, before + [Swap] + during + [EndPending] + after);
            s.enqueued <= Run(s, before).enqueued <= f.executed
  {
    var u := Run(s, before);
    var t := Step(u, Swap);
    var w := Run(t, during);
    TurnTrace(s, before, during, after);
    ExactlyOnceInOrder(s, before);
    StepKeepsBookkeeping(u, Swap);
    ExactlyOnceInOrder(t, during);
    TakenOnlyGrows(t, during);
    StepKeepsBookkeeping(w, EndPending);
    ExactlyOnceInOrder(Step(w, EndPending), after);
    assert w.executed + w.batch == w.executed;
  }

  lemma TurnTrace(s: State, before: seq<Event>, during: seq<Event>, after: seq<Event>)
    ensures Run(s, before + [Swap] + during + [EndPending] + after) ==
            Run(Step(Run(Step(Run(s, before), Swap), during), EndPending), after)
  {
    RunAppend(s, before + [Swap] + during + [EndPending], after);
    RunAppend(s, before + [Swap] + during, [EndPending]);
    RunAppend(s, before + [Swap], during);
    RunAppend(s, before, [Swap]);
    RunOne(Run(s, before), Swap);
    RunOne(Run(s, before + [Swap] + during), EndPending);
  }

  lemma RunOne(s: State, e: Event)
    ensures Run(s, [e]) == Step(s, e)
  {
    assert [e][1..] == [];
    assert Run(Step(s, e), []) == Step(s, e);
  }

  lemma {:induction false} TakenOnlyGrows(s: State, es: seq<Event>)
    requires Bookkeeping(s)
    ensures s.taken <= Run(s, es).taken
    decreases |es|
  {
    if es != [] {
      StepKeepsBookkeeping(s, es[0]);
      TakenOnlyGrows(Step(s, es[0]), es[1..]);
    }
  }

  lemma TurnSplits(s: State, n: nat)
    ensures Run(s, Turn(n)) == Step(Run(Run(s, ToSwap()), Repeat(RunFunctor, n)), EndPending)
  {
    RunAppend(s, ToSwap() + Repeat(RunFunctor, n), [EndPending]);
    RunAppend(s, ToSwap(), Repeat(RunFunctor, n));
    var done := Run(Run(s, ToSwap()), Repeat(RunFunctor, n));
    assert [EndPending][1..] == [];
    assert Run(done, [EndPending]) == Step(done, EndPending);
  }

  lemma SwappedBookkeeping(s: State)
    requires Bookkeeping(s) && s.pc.InPoll?
    ensures Bookkeeping(Swapped(s)) && s.executed + s.pending == s.enqueued
  {
    assert s.executed + [] == s.executed;
    assert s.executed + s.pending + [] == s.executed + s.pending;
    assert s.enqueued[..|s.enqueued|] == s.enqueued;
  }

  lemma ReachesSwap(s: State)
    requires s.pc.InPoll? && s.counter > 0
    ensures Run(s, ToSwap()) == Swapped(s)
  {
    var es := ToSwap();
    var s1 := Step(s, es[0]);
    var s2 := Step(s1, es[1]);
    var s3 := Step(s2, es[2]);
    assert es[1..] == [WakeupRead, BeginPending, Swap];
    assert es[1..][1..] == [BeginPending, Swap];
    assert es[1..][1..][1..] == [Swap];
    assert es[1..][1..][1..][1..] == [];
    assert Run(s, es) == Run(s1, es[1..]);
    assert Run(s1, es[1..]) == Run(s2, es[1..][1..]);
    assert Run(s2, es[1..][1..]) == Run(s3, es[1..][1..][1..]);
    assert Step(s3, Swap) == Swapped(s);
  }

  // ---------------------------------------------------------------- quitting

  lemma {:induction false} StaysQuit(s: State, es: seq<Event>)
    requires s.quit
    ensures Run(s, es).quit
    decreases |es|
  {
    if es != [] {
      StaysQuit(Step(s, es[0]), es[1..]);
    }
  }

  lemma {:induction false} StaysStopped(s: State, es: seq<Event>)
    requires s.pc.Stopped?
    ensures Run(s, es).pc.Stopped? && Run(s, es).executed == s.executed
    decreases |es|
  {
    if es != [] {
      StaysStopped(Step(s, es[0]), es[1..]);
    }
  }

  /** After `quit`, by another thread or by user code of the loop thread, in every continuation the next test
      of `quit_` ends the loop for good: nothing is executed any more. */
  lemma QuitEndsLoop(s: State, e: Event, es: seq<Event>, later: seq<Event>)
    requires match e
             case Quit(t) => t !in s.owing
             case OwnQuit => (s.pc.NotStarted? || s.pc.Handling? || s.pc.Running?) && !s.ownerOwing
             case _ => false
    ensures var f := Run(Step(s, e), es);
            && f.quit
            && (f.pc.AtTest? ==>
                 var t := Step(f, TestQuit);
                 t.pc.Stopped? && Run(t, later).pc.Stopped? && Run(t, later).executed == f.executed)
  {
    StaysQuit(Step(s, e), es);
    var f := Run(Step(s, e), es);
    if f.pc.AtTest? {
      StaysStopped(Step(f, TestQuit), later);
    }
  }

  /** And without it the test goes on to the poll. */
  lemma NoQuitGoesOn(s: State)
    requires s.pc.AtTest? && !s.quit
    ensures Step(s, TestQuit) == s.(pc := InPoll)
  {
  }
}
