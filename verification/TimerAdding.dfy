/** The return of `addTimer`, net/TimerQueueff.cpp:153-158.  It hands the timer to the loop thread and only
    then reads the timer's sequence for the caller.  Exactly when that read finds the timer alive. */
module TimerAdding {
  import opened TimerQueue
  import opened TimerQueueTheorems
  import opened TimerCancellation

  /** What can happen between the allocation in `addTimer` and its last line, which reads the sequence.  On the loop
      thread only the insertion of the timer itself, and allocations of other threads; on another thread
      anything, but nobody can cancel an id that has not been returned. */
  predicate Meanwhile(onLoop: bool, es: seq<Event>, id: TimerId) {
    forall k :: 0 <= k < |es| ==>
      if onLoop then es[k].CreateTimer? || (es[k].AddTimerInLoop? && es[k].addr == id.addr)
      else es[k] != CancelTimer(id)
  }

  /** `id` is alive, and a firing that holds it will restart it. */
  predicate Recurs(s: State, id: TimerId) {
    && Live(s, id) && s.heap[id.addr].repeat
    && (Holds(s, Elems(Batch(s)), id.addr) ==> id !in s.canceling)
  }

  lemma EndKeepsRecurring(s: State, clock: int, id: TimerId)
    requires Inv(s) && Recurs(s, id) && Enabled(s, EndFiring(clock))
    ensures Inv(Step(s, EndFiring(clock))) && Recurs(Step(s, EndFiring(clock)), id)
  {
    StepKeepsInv(s, EndFiring(clock));
    EndFiringStep(s, clock);
    var b := s.phase.batch;
    var n := Node(s.heap[id.addr].expire, id.addr);
    assert n in b <==> Holds(s, Elems(Batch(s)), id.addr);
    KeyedBatch(s, b);
    hide Core, Inv, Step, Sorted;
    if n in b {
      ResetRestartsTimer(EndCalling(s), b, s.phase.now, n);
    } else {
      assert forall m :: m in b ==> m.addr != id.addr;
      ResetKeepsOtherTimers(EndCalling(s), b, s.phase.now, id.addr);
    }
  }

  lemma CancelKeepsRecurring(s: State, other: TimerId, id: TimerId)
    requires Inv(s) && Recurs(s, id) && other != id
    ensures Recurs(Cancel(s, other), id)
  {
    if other in s.active {
      assert Live(s, other);
    }
  }

  lemma StepKeepsRecurring(s: State, e: Event, id: TimerId)
    requires Inv(s) && Recurs(s, id) && e != CancelTimer(id)
    ensures Inv(Step(s, e)) && Recurs(Step(s, e), id)
  {
    StepKeepsInv(s, e);
    hide Core;
    if Enabled(s, e) {
      match e
      case CreateTimer(_, _, _, _) =>
      case AddTimerInLoop(_, _) =>
      case CancelTimer(other) => CancelKeepsRecurring(s, other, id);
      case BeginFiring(_, _) =>
      case RunCallback =>
      case EndFiring(clock) => EndKeepsRecurring(s, clock, id);
    }
  }

  lemma {:induction false} RunKeepsRecurring(s: State, es: seq<Event>, id: TimerId)
    requires Inv(s) && Recurs(s, id) && Meanwhile(false, es, id)
    ensures Recurs(Run(s, es), id)
    decreases |es|
  {
    if es != [] {
      assert forall k :: 0 <= k < |es| - 1 ==> es[1..][k] == es[k + 1];
      StepKeepsRecurring(s, es[0], id);
      RunKeepsRecurring(Step(s, es[0]), es[1..], id);
    }
  }

  /** On the loop thread nothing can delete the timer before `addTimer` returns. */
  lemma {:induction false} OnLoopStaysLive(s: State, es: seq<Event>, id: TimerId)
    requires Inv(s) && Live(s, id) && Meanwhile(true, es, id)
    ensures Live(Run(s, es), id)
    decreases |es|
  {
    if es != [] {
      StepKeepsInv(s, es[0]);
      assert forall k :: 0 <= k < |es| - 1 ==> es[1..][k] == es[k + 1];
      OnLoopStaysLive(Step(s, es[0]), es[1..], id);
    }
  }

  lemma NewIsOutsideBatch(s: State, a: nat)
    requires Inv(s) && a in s.inflight
    ensures !Holds(s, Elems(Batch(s)), a)
  {
  }

  /** A one-shot timer in an idle queue is deleted by the firing it goes off in. */
  lemma OneShotIsDeleted(s: State, a: nat) returns (es: seq<Event>)
    requires Inv(s) && s.phase.Idle? && a in s.inflight && a in s.heap && !s.heap[a].repeat
    ensures NoCancels(es) && a !in Run(s, es).heap
  {
    AddReachesQueue(s, a);
    var n := Node(s.heap[a].expire, a);
    var t := Step(s, AddTimerInLoop(a, 0));
    hide Inv, Step, Run;
    var fired := FiredAndDeleted(t, n, if n.expire < 1 then 1 else n.expire);
    es := [AddTimerInLoop(a, 0)] + fired;
    RunCons(s, AddTimerInLoop(a, 0), fired);
  }

  lemma OneShotIsDropped(s: State, n: Node)
    requires Inv(s) && Enabled(s, EndFiring(0)) && n in s.phase.batch
    requires n.addr in s.heap && !s.heap[n.addr].repeat
    ensures n.addr !in Step(s, EndFiring(0)).heap
  {
    hide Inv, Step;
    FiringEndsExactly(s, 0);
    assert !Restarted(s, n);
    assert n.addr in DroppedAddrs(s, s.phase.batch);
  }

  lemma BatchHasExpired(s: State, n: Node, now: int)
    requires Inv(s) && s.phase.Idle? && n in s.timers && n.expire <= now && 0 < now
    ensures var b := Step(s, BeginFiring(now, 0));
            Inv(b) && b.phase.Firing? && n in b.phase.batch && b.heap == s.heap
  {
    BeginFiringShape(s, now, 0);
    ExpiredIsDue(s, now);
  }

  lemma FiredAndDeleted(s: State, n: Node, now: int) returns (es: seq<Event>)
    requires Inv(s) && s.phase.Idle? && n in s.timers && n.expire <= now && 0 < now
    requires n.addr in s.heap && !s.heap[n.addr].repeat
    ensures NoCancels(es) && n.addr !in Run(s, es).heap
  {
    hide Inv, Step, Run;
    BatchHasExpired(s, n, now);
    var b := Step(s, BeginFiring(now, 0));
    var calls := RunCallbacks(b);
    OneShotIsDropped(Run(b, calls), n);
    es := [BeginFiring(now, 0)] + (calls + [EndFiring(0)]);
    RunCons(s, BeginFiring(now, 0), calls + [EndFiring(0)]);
    RunSnoc(b, calls, EndFiring(0));
  }

  /** The run in which the timer is gone when another thread's `addTimer` returns: the loop thread has
      inserted it, run it and deleted it. */
  lemma ReturnReadsFreed(s: State, id: TimerId) returns (es: seq<Event>)
    requires Inv(s) && Live(s, id) && id.addr in s.inflight && !s.heap[id.addr].repeat
    ensures NoCancels(es) && id.addr !in Run(s, es).heap
  {
    var first := FinishFiring(s, id.addr);
    hide Inv, Step, Run;
    var later := OneShotIsDeleted(Run(s, first), id.addr);
    es := first + later;
    RunAppend(s, first, later);
  }

  /** Another thread's timer that has been handed over is alive in every continuation if and only if it repeats. */
  lemma HandedOverStaysExactly(s: State, id: TimerId)
    requires Inv(s) && Live(s, id) && id.addr in s.inflight
    ensures (forall es :: Meanwhile(false, es, id) ==> Live(Run(s, es), id)) <==> s.heap[id.addr].repeat
  {
    if s.heap[id.addr].repeat {
      NewIsOutsideBatch(s, id.addr);
      forall es | Meanwhile(false, es, id) ensures Live(Run(s, es), id) {
        RunKeepsRecurring(s, es, id);
      }
    } else {
      var es := ReturnReadsFreed(s, id);
      assert Meanwhile(false, es, id) && !Live(Run(s, es), id);
    }
  }

  /** The timer is alive when `addTimer` reads its sequence, whatever happens meanwhile, if and only if the
      call is on the loop thread or the timer repeats. */
  lemma ReturnReadsLiveExactly(s: State, a: nat, when: int, repeat: bool, micros: nat, onLoop: bool)
    requires Inv(s) && a !in s.heap && a < UINTPTR_MAX
    ensures Inv(Create(s, a, when, repeat, micros))
    ensures var t := Create(s, a, when, repeat, micros);
            var id := TimerId(a, t.created);
            (forall es :: Meanwhile(onLoop, es, id) ==> Live(Run(t, es), id)) <==> onLoop || repeat
  {
    CreateKeepsInv(s, a, when, repeat, micros);
    var t := Create(s, a, when, repeat, micros);
    var id := TimerId(a, t.created);
    if onLoop {
      forall es | Meanwhile(true, es, id) ensures Live(Run(t, es), id) {
        OnLoopStaysLive(t, es, id);
      }
    } else {
      HandedOverStaysExactly(t, id);
    }
  }
}
