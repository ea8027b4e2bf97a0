/** The class of net/EventLoopff.h.  Each method is proved to take the steps of module EventLoop, so what is proved
    there about every interleaving holds of the object. */
module EventLoopObject {
  import opened EventLoop

  /** A call user code makes on its own loop: `queueInLoop` of a functor, with what other threads do before
      its push and between its push and its wakeup, or `quit`. */
  datatype OwnCall =
    | QueueCall(before: seq<Event>, functor: nat, between: seq<Event>)
    | QuitCall(before: seq<Event>)

  class EventLoopff {
    var pendingFunctors: seq<nat>
    var quit: bool
    var callingPendingFunctors: bool
    var wakeupCounter: nat             // the eventfd, kept by the kernel
    ghost var pc: Pc
    ghost var batch: seq<nat>
    var owing: set<nat>                // other threads between their push and their write
    var ownerOwing: bool
    ghost var executed: seq<nat>
    ghost var enqueued: seq<nat>
    ghost var taken: nat

    ghost function View(): State
      reads this
    {
      State(pendingFunctors, quit, callingPendingFunctors, wakeupCounter, pc, batch, owing, ownerOwing,
            executed, enqueued, taken)
    }

    constructor ()
      ensures View() == Init()
    {
      pendingFunctors, quit, callingPendingFunctors, wakeupCounter := [], false, false, 0;
      pc, batch, owing, ownerOwing, executed, enqueued, taken := NotStarted, [], {}, false, [], [], 0;
    }

    /** `wakeup`: a full counter makes the write fail, which is only logged. */
    method WriteEventFd()
      modifies this`wakeupCounter
      ensures wakeupCounter == Write(old(wakeupCounter)) && wakeupCounter > 0
      ensures wakeupCounter == old(wakeupCounter) + 1 || wakeupCounter == old(wakeupCounter) >= EVENTFD_MAX
    {
      if wakeupCounter < EVENTFD_MAX {
        wakeupCounter := wakeupCounter + 1;
      }
    }

    /** The critical section of `queueInLoop`. */
    method PushBack(functor: nat)
      modifies this`pendingFunctors, this`enqueued
      ensures View() == Enqueue(old(View()), functor) && pendingFunctors == old(pendingFunctors) + [functor]
    {
      pendingFunctors := pendingFunctors + [functor];
      enqueued := enqueued + [functor];
    }

    /** One step of another thread. */
    method Perform(e: Event)
      requires FromOtherThread(e)
      modifies this
      ensures View() == Step(old(View()), e)
    {
      match e
      case Push(t, f) =>
        if t !in owing {
          PushBack(f);
          owing := owing + {t};
        }
      case Quit(t) =>
        if t !in owing && !quit {
          quit := true;
          owing := owing + {t};
        }
      case Wakeup(t) =>
        if t in owing {
          WriteEventFd();
          owing := owing - {t};
        }
    }

    method PerformAll(es: seq<Event>)
      requires forall e :: e in es ==> FromOtherThread(e)
      modifies this
      ensures View() == Run(old(View()), es)
    {
      hide Step, Enabled;
      ghost var start := View();
      var i := 0;
      assert es[..0] == [];
      while i < |es|
        invariant 0 <= i <= |es|
        invariant View() == Run(start, es[..i])
      {
        assert es[i] in es;
        RunSnoc(start, es[..i], es[i]);
        assert es[..i] + [es[i]] == es[..i + 1];
        Perform(es[i]);
        i := i + 1;
      }
      assert es[..i] == es;
    }

    /** `queueInLoop` on the loop thread, with steps of other threads between push and wakeup: it writes the
        eventfd only while functors are being called. */
    method QueueInLoop(functor: nat, between: seq<Event>)
      requires InUserCode(View()) && !ownerOwing
      requires forall e :: e in between ==> FromOtherThread(e)
      modifies this
      ensures View() == Run(old(View()), [OwnPush(functor)] + between + [OwnWakeup])
      ensures old(pendingFunctors) + [functor] <= pendingFunctors
      ensures between == [] ==> pendingFunctors == old(pendingFunctors) + [functor]
      ensures pc == old(pc) && batch == old(batch) && callingPendingFunctors == old(callingPendingFunctors) &&
        !ownerOwing
      ensures old(callingPendingFunctors) ==> wakeupCounter > 0
    {
      QueueTraceRuns(View(), functor, between);
      RunNothing(Step(View(), OwnPush(functor)));
      hide Run;
      Push(functor);
      OthersLeaveLoopThread(View(), between);
      OthersOnlyAdd(View(), between);
      PerformAll(between);
      Wake();
    }

    method Push(functor: nat)
      requires InUserCode(View()) && !ownerOwing
      modifies this`pendingFunctors, this`enqueued, this`ownerOwing
      ensures View() == Step(old(View()), OwnPush(functor)) && ownerOwing == callingPendingFunctors
      ensures pendingFunctors == old(pendingFunctors) + [functor]
    {
      PushBack(functor);
      ownerOwing := callingPendingFunctors;
    }

    method Wake()
      requires ownerOwing == callingPendingFunctors
      modifies this`wakeupCounter, this`ownerOwing
      ensures View() == Step(old(View()), OwnWakeup) && !ownerOwing && pendingFunctors == old(pendingFunctors)
      ensures callingPendingFunctors ==> wakeupCounter > 0
    {
      if callingPendingFunctors {
        WriteEventFd();
        ownerOwing := false;
      }
    }

    /** `quit` on the loop thread. */
    method QuitOnLoop()
      requires InUserCode(View()) && !ownerOwing
      modifies this`quit
      ensures View() == Step(old(View()), OwnQuit) && quit
    {
      quit := true;
    }

    method MakeCall(call: OwnCall)
      requires InUserCode(View()) && !ownerOwing && OnlyOthers([call])
      modifies this
      ensures View() == Run(old(View()), CallSteps(call))
      ensures pc == old(pc) && batch == old(batch) && !ownerOwing
      ensures callingPendingFunctors == old(callingPendingFunctors)
    {
      ghost var start := View();
      assert call in [call];
      hide Run, Step;
      OthersLeaveLoopThread(View(), call.before);
      PerformAll(call.before);
      match call
      case QueueCall(before, functor, between) =>
        RunAppend(start, before, [OwnPush(functor)] + between + [OwnWakeup]);
        QueueInLoop(functor, between);
      case QuitCall(before) =>
        RunSnoc(start, before, OwnQuit);
        QuitOnLoop();
    }

    /** User code of the loop thread, an event handler or a functor, as far as it touches its loop. */
    method UserCode(calls: seq<OwnCall>)
      requires InUserCode(View()) && !ownerOwing && OnlyOthers(calls)
      modifies this
      ensures View() == Run(old(View()), Queued(calls))
      ensures pc == old(pc) && batch == old(batch) && !ownerOwing
      ensures callingPendingFunctors == old(callingPendingFunctors)
    {
      hide Run, Queued, CallSteps, OnlyOthers, FromOtherThread;
      ghost var start := View();
      var i := 0;
      assert calls[..0] == [];
      NothingQueued(start);
      while i < |calls|
        invariant 0 <= i <= |calls|
        invariant View() == Run(start, Queued(calls[..i]))
        invariant pc == start.pc && batch == start.batch && callingPendingFunctors == start.calling && !ownerOwing
      {
        assert calls[..i + 1] == calls[..i] + [calls[i]];
        QueuedSnoc(start, calls[..i], calls[i]);
        OnlyThis(calls, i);
        MakeCall(calls[i]);
        i := i + 1;
      }
      assert calls[..i] == calls;
    }

    /** A functor that queues others and may quit, with steps of other threads before each call, between a
        push and its wakeup, and before the functor returns. */
    method CallFunctor(queues: seq<OwnCall>, others: seq<Event>)
      requires pc.Running? && batch != [] && !ownerOwing
      requires OnlyOthers(queues) && forall e :: e in others ==> FromOtherThread(e)
      modifies this
      ensures View() == Run(old(View()), CallTrace(queues, others))
      ensures pc.Running? && batch == old(batch)[1..] && !ownerOwing
    {
      CallTraceRuns(View(), queues, others);
      hide Run;
      executed := executed + [batch[0]];
      batch := batch[1..];
      UserCode(queues);
      OthersLeaveLoopThread(View(), others);
      PerformAll(others);
    }

    /** `handleWakeupRead`. */
    method HandleWakeupRead()
      requires pc == Handling(true)
      modifies this`wakeupCounter, this`pc
      ensures View() == Step(old(View()), WakeupRead) && wakeupCounter == 0 && pc == Handling(false)
    {
      wakeupCounter := 0;
      pc := Handling(false);
    }

    /** `epoll_wait`, with what other threads do meanwhile; it reports the eventfd if it is readable then. */
    method Poll(others: seq<Event>) returns (wake: bool)
      requires pc.InPoll? && !ownerOwing && forall e :: e in others ==> FromOtherThread(e)
      modifies this
      ensures View() == Run(old(View()), others + [PollReturns(wake)])
      ensures pc == Handling(wake) && !ownerOwing
    {
      RunSnocEach(View(), others);
      hide Run;
      OthersLeaveLoopThread(View(), others);
      PerformAll(others);
      wake := wakeupCounter > 0;
      pc := Handling(wake);
    }

    /** The poll and the event handlers of one turn: `first` before the eventfd is read, `second` after. */
    method PollAndHandle(others: seq<Event>, first: seq<OwnCall>, second: seq<OwnCall>) returns (wake: bool)
      requires pc.InPoll? && !ownerOwing && OnlyOthers(first) && OnlyOthers(second)
      requires forall e :: e in others ==> FromOtherThread(e)
      modifies this
      ensures View() == Run(old(View()), HandleTrace(others, wake, first, second))
      ensures pc == Handling(false) && !ownerOwing
    {
      ghost var start := View();
      hide Run, Step;
      wake := Poll(others);
      HandleTraceRuns(start, others, wake, first, second);
      UserCode(first);
      if wake {
        HandleWakeupRead();
      }
      UserCode(second);
    }

    /** One turn of `while(!quit_)` in `loop`: it ends the loop if `quit_` is set, and otherwise polls,
        handles, and runs the queued functors, as one run of the small steps. */
    method Turn(inPoll: seq<Event>, first: seq<OwnCall>, second: seq<OwnCall>,
                queues: nat -> seq<OwnCall>, others: nat -> seq<Event>) returns (again: bool, ghost wake: bool)
      requires pc.AtTest? && !ownerOwing && OnlyOthers(first) && OnlyOthers(second)
      requires forall e :: e in inPoll ==> FromOtherThread(e)
      requires forall k: nat :: OnlyOthers(queues(k))
      requires forall k: nat, e :: e in others(k) ==> FromOtherThread(e)
      modifies this
      ensures again == !old(quit)
      ensures !again ==> pc.Stopped? && View() == Step(old(View()), TestQuit)
      ensures again ==>
        var handled := Run(Step(old(View()), TestQuit), HandleTrace(inPoll, wake, first, second));
        var begin := [BeginPending] + others(0) + [Swap];
        var n := |Run(handled, begin).batch|;
        && pc.AtTest? && batch == [] && !callingPendingFunctors
        && View() == Run(handled, begin + Calls(queues, others, n) + [EndPending])
    {
      again, wake := !quit, false;
      if !again {
        pc := Stopped;
        return;
      }
      pc := InPoll;
      assert View() == Step(old(View()), TestQuit);
      hide Run, Step, Calls;
      wake := PollAndHandle(inPoll, first, second);
      DoPendingFunctors(queues, others);
    }

    /** `doPendingFunctors`: functor k queues `queues(k)` from the loop thread, and other threads act at any
        moment before the swap (`others(0)`), inside each functor, and after it (`others(k + 1)`).  It is one
        run of the small steps, ending at the test of `quit_`. */
    method DoPendingFunctors(queues: nat -> seq<OwnCall>, others: nat -> seq<Event>)
      requires pc == Handling(false) && !ownerOwing
      requires forall k: nat :: OnlyOthers(queues(k))
      requires forall k: nat, e :: e in others(k) ==> FromOtherThread(e)
      modifies this
      ensures pc == AtTest && batch == [] && !callingPendingFunctors
      ensures var begin := [BeginPending] + others(0) + [Swap];
              var n := |Run(old(View()), begin).batch|;
              View() == Run(old(View()), begin + Calls(queues, others, n) + [EndPending])
    {
      ghost var start := View();
      var functors := BeginAndSwap(others(0));
      PendingTrace(start, [BeginPending] + others(0) + [Swap], Calls(queues, others, |functors|));
      hide Run, Calls, Step;
      CallAll(functors, queues, others);
      End();
    }

    /** The loop over the swapped functors. */
    method CallAll(functors: seq<nat>, queues: nat -> seq<OwnCall>, others: nat -> seq<Event>)
      requires pc.Running? && !ownerOwing && batch == functors
      requires forall k: nat :: OnlyOthers(queues(k))
      requires forall k: nat, e :: e in others(k) ==> FromOtherThread(e)
      modifies this
      ensures View() == Run(old(View()), Calls(queues, others, |functors|))
      ensures pc.Running? && !ownerOwing && batch == []
    {
      ghost var swapped := View();
      var n: nat := 0;
      assert Run(swapped, []) == swapped;
      while n < |functors|
        invariant 0 <= n <= |functors|
        invariant View() == Run(swapped, Calls(queues, others, n))
        invariant pc.Running? && !ownerOwing && batch == functors[n..]
      {
        RunAppend(swapped, Calls(queues, others, n), CallTrace(queues(n), others(n + 1)));
        CallFunctor(queues(n), others(n + 1));
        n := n + 1;
      }
    }

    method Begin()
      requires pc == Handling(false) && !ownerOwing
      modifies this`callingPendingFunctors, this`pc
      ensures View() == Step(old(View()), BeginPending) && pc.Calling?
    {
      callingPendingFunctors := true;
      pc := Calling;
    }

    /** `functors.swap(pendingFunctors_)` under the mutex. */
    method SwapFunctors() returns (functors: seq<nat>)
      requires pc.Calling? && !ownerOwing
      modifies this`pendingFunctors, this`batch, this`pc, this`taken
      ensures View() == Step(old(View()), Swap)
      ensures pc.Running? && batch == functors == old(pendingFunctors) && pendingFunctors == []
    {
      functors := pendingFunctors;
      pendingFunctors := [];
      batch := functors;
      pc := Running;
      taken := |enqueued|;
    }

    method End()
      requires pc.Running? && batch == [] && !ownerOwing
      modifies this`callingPendingFunctors, this`pc
      ensures View() == Step(old(View()), EndPending) && pc.AtTest? && !callingPendingFunctors
    {
      callingPendingFunctors := false;
      pc := AtTest;
    }

    method BeginAndSwap(others: seq<Event>) returns (functors: seq<nat>)
      requires pc == Handling(false) && !ownerOwing
      requires forall e :: e in others ==> FromOtherThread(e)
      modifies this
      ensures View() == Run(old(View()), [BeginPending] + others + [Swap])
      ensures pc.Running? && !ownerOwing && batch == functors
    {
      BeginTrace(View(), others);
      hide Run, Step;
      Begin();
      OthersLeaveLoopThread(View(), others);
      PerformAll(others);
      functors := SwapFunctors();
    }
  }

  predicate FromOtherThread(e: Event) {
    e.Push? || e.Quit? || e.Wakeup?
  }

  predicate OnlyOthers(calls: seq<OwnCall>) {
    forall q :: q in calls ==>
      && (forall e :: e in q.before ==> FromOtherThread(e))
      && (q.QueueCall? ==> forall e :: e in q.between ==> FromOtherThread(e))
  }

  function CallSteps(q: OwnCall): seq<Event> {
    match q
    case QueueCall(before, functor, between) => before + ([OwnPush(functor)] + between + [OwnWakeup])
    case QuitCall(before) => before + [OwnQuit]
  }

  /** What other threads do in a poll, its return, and what the handlers do. */
  function HandleTrace(others: seq<Event>, wake: bool, first: seq<OwnCall>, second: seq<OwnCall>): seq<Event> {
    others + [PollReturns(wake)] + (Queued(first) + ((if wake then [WakeupRead] else []) + Queued(second)))
  }

  /** What a functor that queues each of `queues` does, and what other threads do meanwhile. */
  function Queued(queues: seq<OwnCall>): seq<Event> {
    if queues == [] then []
    else Queued(queues[..|queues| - 1]) + CallSteps(queues[|queues| - 1])
  }

  function CallTrace(queues: seq<OwnCall>, others: seq<Event>): seq<Event> {
    [RunFunctor] + (Queued(queues) + others)
  }

  function Calls(queues: nat -> seq<OwnCall>, others: nat -> seq<Event>, n: nat): seq<Event> {
    if n == 0 then [] else Calls(queues, others, n - 1) + CallTrace(queues(n - 1), others(n))
  }

  lemma RunNothing(s: State)
    ensures Run(s, []) == s
  {
  }

  /** Other threads only add to the queue. */
  lemma {:induction false} OthersOnlyAdd(s: State, es: seq<Event>)
    requires forall e :: e in es ==> FromOtherThread(e)
    ensures s.pending <= Run(s, es).pending
    decreases |es|
  {
    if es != [] {
      assert es[0] in es;
      assert forall e :: e in es[1..] ==> e in es;
      OthersOnlyAdd(Step(s, es[0]), es[1..]);
    }
  }

  lemma RunCons(s: State, e: Event, es: seq<Event>)
    ensures Run(s, [e] + es) == Run(Step(s, e), es)
  {
    assert ([e] + es)[1..] == es;
  }

  lemma RunSnoc(s: State, es: seq<Event>, e: Event)
    ensures Run(s, es + [e]) == Step(Run(s, es), e)
  {
    RunAppend(s, es, [e]);
    RunCons(Run(s, es), e, []);
    assert [e] + [] == [e];
  }

  lemma PendingTrace(s: State, begin: seq<Event>, calls: seq<Event>)
    ensures Run(s, begin + calls + [EndPending]) == Step(Run(Run(s, begin), calls), EndPending)
  {
    RunAppend(s, begin, calls);
    RunSnoc(s, begin + calls, EndPending);
  }

  lemma BeginTrace(s: State, others: seq<Event>)
    ensures Run(s, [BeginPending] + others + [Swap]) == Step(Run(Step(s, BeginPending), others), Swap)
  {
    RunCons(s, BeginPending, others);
    RunSnoc(s, [BeginPending] + others, Swap);
  }

  lemma CallTraceRuns(s: State, queues: seq<OwnCall>, others: seq<Event>)
    ensures Run(s, CallTrace(queues, others)) == Run(Run(Step(s, RunFunctor), Queued(queues)), others)
  {
    RunCons(s, RunFunctor, Queued(queues) + others);
    RunAppend(Step(s, RunFunctor), Queued(queues), others);
  }

  lemma NothingQueued(s: State)
    ensures Run(s, Queued([])) == s
  {
  }

  lemma QueueTraceRuns(s: State, f: nat, between: seq<Event>)
    ensures Run(s, [OwnPush(f)] + between + [OwnWakeup]) == Step(Run(Step(s, OwnPush(f)), between), OwnWakeup)
  {
    RunCons(s, OwnPush(f), between);
    RunSnoc(s, [OwnPush(f)] + between, OwnWakeup);
  }

  lemma OnlyThis(calls: seq<OwnCall>, i: nat)
    requires OnlyOthers(calls) && i < |calls|
    ensures OnlyOthers([calls[i]])
  {
    assert calls[i] in calls;
  }

  lemma QueuedSnoc(s: State, queues: seq<OwnCall>, q: OwnCall)
    ensures Run(s, Queued(queues + [q])) == Run(Run(s, Queued(queues)), CallSteps(q))
  {
    assert (queues + [q])[..|queues|] == queues;
    RunAppend(s, Queued(queues), CallSteps(q));
  }

  lemma RunSnocEach(s: State, es: seq<Event>)
    ensures forall e :: Run(s, es + [e]) == Step(Run(s, es), e)
  {
    forall e ensures Run(s, es + [e]) == Step(Run(s, es), e) {
      RunSnoc(s, es, e);
    }
  }

  lemma HandleTraceRuns(s: State, others: seq<Event>, wake: bool, first: seq<OwnCall>, second: seq<OwnCall>)
    ensures var polled := Run(Run(s, others + [PollReturns(wake)]), Queued(first));
            Run(s, HandleTrace(others, wake, first, second)) ==
              Run(if wake then Step(polled, WakeupRead) else polled, Queued(second))
  {
    var read := if wake then [WakeupRead] else [];
    var p := Run(s, others + [PollReturns(wake)]);
    RunAppend(s, others + [PollReturns(wake)], Queued(first) + (read + Queued(second)));
    RunAppend(p, Queued(first), read + Queued(second));
    if wake {
      RunCons(Run(p, Queued(first)), WakeupRead, Queued(second));
    } else {
      assert read + Queued(second) == Queued(second);
    }
  }

  /** Other threads do not move the loop thread. */
  lemma {:induction false} OthersLeaveLoopThread(s: State, es: seq<Event>)
    requires forall e :: e in es ==> FromOtherThread(e)
    ensures var r := Run(s, es);
            r.pc == s.pc && r.calling == s.calling && r.batch == s.batch && r.ownerOwing == s.ownerOwing
    decreases |es|
  {
    if es != [] {
      assert es[0] in es;
      assert forall e :: e in es[1..] ==> e in es;
      OthersLeaveLoopThread(Step(s, es[0]), es[1..]);
    }
  }
}
