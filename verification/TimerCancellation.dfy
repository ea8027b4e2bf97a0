/** When a cancel works: over all continuations, exactly when the timer has reached the queue.  A cancel that
    overtakes the timer's own `addTimerInLoop` is lost, and here is the run in which the cancelled timer goes
    off. */
module TimerCancellation {
  import opened TimerQueue
  import opened TimerQueueTheorems

  predicate NoCancels(es: seq<Event>) {
    forall k :: 0 <= k < |es| ==> !es[k].CancelTimer?
  }

  /** The rest of a firing whose callbacks do nothing. */
  lemma {:induction false} RunCallbacks(s: State) returns (es: seq<Event>)
    requires Inv(s) && s.phase.Firing?
    ensures StaysFiring(es) && NoCancels(es)
    ensures var f := Run(s, es);
            && f.phase == s.phase.(done := |s.phase.batch|)
            && f.heap == s.heap && f.inflight == s.inflight
    decreases |s.phase.batch| - s.phase.done
  {
    if s.phase.done == |s.phase.batch| {
      es := [];
    } else {
      StepKeepsInv(s, RunCallback);
      assert Step(s, RunCallback).phase == s.phase.(done := s.phase.done + 1);
      var rest := RunCallbacks(Step(s, RunCallback));
      es := [RunCallback] + rest;
      RunCons(s, RunCallback, rest);
    }
  }

  lemma InflightIsOutsideBatch(s: State, a: nat)
    requires Inv(s) && a in s.inflight
    ensures a in s.heap && forall n :: n in Batch(s) ==> n.addr != a
  {
    forall n | n in Batch(s) ensures n.addr != a {
      assert n in Elems(Batch(s));
      assert Holds(s, Elems(Batch(s)), n.addr);
    }
  }

  /** A timer still being added survives the end of a firing. */
  lemma EndSparesInflight(s: State, a: nat)
    requires Inv(s) && Enabled(s, EndFiring(0)) && a in s.inflight
    ensures a in s.heap
    ensures var f := Step(s, EndFiring(0));
            f.phase.Idle? && f.ran == s.ran && f.inflight == s.inflight && a in f.heap && f.heap[a] == s.heap[a]
  {
    InflightIsOutsideBatch(s, a);
    FiringEndsExactly(s, 0);
    EndFiringStep(s, 0);
    hide Core, Inv, Step, Sorted;
    ResetKeepsOtherTimers(EndCalling(s), s.phase.batch, s.phase.now, a);
  }

  lemma LogOfWholeBatch(s: State)
    requires Inv(s) && s.phase.Firing? && s.phase.done == |s.phase.batch|
    ensures |s.ran| == EndOfBatch(s)
  {
  }

  /** The firing in progress can end before the timer reaches the queue. */
  lemma FinishFiring(s: State, a: nat) returns (es: seq<Event>)
    requires Inv(s) && a in s.inflight
    ensures a in s.heap && NoCancels(es)
    ensures var f := Run(s, es);
            f.phase.Idle? && |f.ran| == EndOfBatch(s) && a in f.inflight && a in f.heap && f.heap[a] == s.heap[a]
  {
    InflightIsOutsideBatch(s, a);
    if s.phase.Idle? {
      es := [];
    } else {
      var calls := RunCallbacks(s);
      var g := Run(s, calls);
      LogOfWholeBatch(g);
      es := calls + [EndFiring(0)];
      RunSnoc(s, calls, EndFiring(0));
      hide Inv, Run, Step;
      EndSparesInflight(g, a);
    }
  }

  /** A queued timer goes off in a firing at its expiry or later. */
  lemma QueuedTimerRuns(s: State, n: Node, now: int) returns (es: seq<Event>, k: nat)
    requires Inv(s) && s.phase.Idle? && n in s.timers && n.expire <= now && 0 < now
    ensures n.addr in s.heap
    ensures |s.ran| <= k < |Run(s, es).ran| && Run(s, es).ran[k] == IdOf(s.heap, n)
  {
    BeginFiringShape(s, now, 0);
    var b := Step(s, BeginFiring(now, 0));
    var calls := RunCallbacks(b);
    FiringRunsExactlyTheExpired(s, now, 0, calls);
    RunCons(s, BeginFiring(now, 0), calls);
    es := [BeginFiring(now, 0)] + calls;
    var f := Run(b, calls);
    hide Inv, Step, Run;
    k := LoggedAt(s, f, n);
  }

  lemma LoggedAt(s: State, f: State, n: Node) returns (k: nat)
    requires f.phase.Firing? && f.phase.done == |f.phase.batch| && n in f.phase.batch
    requires LogGrewBy(s, f, f.phase.batch[..f.phase.done])
    ensures n.addr in s.heap && |s.ran| <= k < |f.ran| && f.ran[k] == IdOf(s.heap, n)
  {
    assert f.phase.batch[..|f.phase.batch|] == f.phase.batch;
    var i :| 0 <= i < |f.phase.batch| && f.phase.batch[i] == n;
    k := |s.ran| + i;
  }

  lemma AddReachesQueue(s: State, a: nat)
    requires Inv(s) && s.phase.Idle? && a in s.inflight
    ensures a in s.heap
    ensures var t := Step(s, AddTimerInLoop(a, 0));
            Inv(t) && t.phase.Idle? && t.ran == s.ran && t.heap == s.heap && Node(s.heap[a].expire, a) in t.timers
  {
    AddKeepsInv(s, a, 0);
  }

  /** A timer that reaches an idle queue goes off. */
  lemma AddedTimerRuns(s: State, id: TimerId) returns (es: seq<Event>, k: nat)
    requires Inv(s) && s.phase.Idle? && Live(s, id) && id.addr in s.inflight
    ensures |s.ran| <= k < |Run(s, es).ran| && Run(s, es).ran[k] == id
  {
    AddReachesQueue(s, id.addr);
    var n := Node(s.heap[id.addr].expire, id.addr);
    var t := Step(s, AddTimerInLoop(id.addr, 0));
    hide Inv, Step, Run;
    var later;
    later, k := QueuedTimerRuns(t, n, if n.expire < 1 then 1 else n.expire);
    es := [AddTimerInLoop(id.addr, 0)] + later;
    RunCons(s, AddTimerInLoop(id.addr, 0), later);
  }

  lemma CancelLeavesInflight(s: State, id: TimerId)
    requires Inv(s) && Live(s, id) && id.addr in s.inflight
    ensures Inv(Cancel(s, id))
    ensures var c := Cancel(s, id);
            c.heap == s.heap && c.inflight == s.inflight && c.phase == s.phase && c.ran == s.ran
  {
    CancelKeepsInv(s, id);
    assert !Holds(s, s.timers, id.addr);
  }

  /** The cancelled timer goes off: the add arrives after the cancel, and a later firing runs it. */
  lemma LostCancelRuns(s: State, id: TimerId) returns (es: seq<Event>, k: nat)
    requires Inv(s) && Live(s, id) && id.addr in s.inflight
    ensures Inv(Cancel(s, id))
    ensures EndOfBatch(s) <= k < |Run(Cancel(s, id), es).ran| && Run(Cancel(s, id), es).ran[k] == id
  {
    CancelLeavesInflight(s, id);
    var c := Cancel(s, id);
    hide Inv, Cancel;
    var first := FinishFiring(c, id.addr);
    var later;
    later, k := AddedTimerRuns(Run(c, first), id);
    es := first + later;
    RunAppend(c, first, later);
  }

  /** Cancelling a live timer on the loop thread keeps it from ever running beyond the batch in progress, in every
      continuation, if and only if the timer is not still waiting to be inserted. */
  lemma CancelExactly(s: State, id: TimerId)
    requires Inv(s) && Live(s, id)
    ensures Inv(Cancel(s, id))
    ensures (forall es, k :: EndOfBatch(s) <= k < |Run(Cancel(s, id), es).ran| ==>
      Run(Cancel(s, id), es).ran[k] != id)
            <==> id.addr !in s.inflight
  {
    CancelKeepsInv(s, id);
    if id.addr in s.inflight {
      var es, k := LostCancelRuns(s, id);
      assert Run(Cancel(s, id), es).ran[k] == id;
    } else {
      assert UniqueSequences(s);
      forall es, k | EndOfBatch(s) <= k < |Run(Cancel(s, id), es).ran| ensures Run(Cancel(s, id), es).ran[k] != id {
        CancelledNeverRunsAgain(s, id, es);
      }
    }
  }
}
