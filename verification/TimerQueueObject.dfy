/** The class of net/TimerQueueff.h, its sets changed in place.  Each method is proved to do what the
    operation on values of module TimerQueue does, so the theorems about runs apply to the object. */
module TimerQueueObject {
  import opened TimerQueue
  import opened TimerQueueTheorems

  class TimerQueueff {
    var heap: map<nat, Timer>        // the free store the queue allocates timers from
    var timers: set<Node>
    var active: set<TimerId>
    var canceling: set<TimerId>
    var calling: bool
    var created: nat
    var fd: TimerFd
    var inflight: set<nat>           // timers whose `addTimerInLoop` is queued in the owner loop
    ghost var phase: Phase
    ghost var ran: seq<TimerId>

    ghost function View(): State
      reads this
    {
      State(heap, timers, active, canceling, calling, created, inflight, phase, fd, ran)
    }

    constructor ()
      ensures View() == Init() && Inv(View())
    {
      heap, timers, active, canceling := map[], {}, {}, {};
      calling, created, fd := false, 0, Disarmed;
      inflight, phase, ran := {}, Idle, [];
      new;
      assert Elems(Batch(View())) == {};
    }

    /** `new Timerff`, on any thread. */
    method NewTimer(a: nat, when: int, repeat: bool, micros: nat)
      requires Inv(View()) && a !in heap && a < UINTPTR_MAX
      modifies this
      ensures Inv(View()) && View() == Create(old(View()), a, when, repeat, micros)
      ensures Live(View(), TimerId(a, created)) && forall b :: b in old(heap) ==> old(heap[b].sequence) != created
      ensures a in heap && heap[a].expire == when && heap[a].repeat == repeat && heap[a].micros == micros
    {
      CreateKeepsInv(View(), a, when, repeat, micros);
      created := created + 1;
      heap := heap[a := Timer(when, repeat, micros, created)];
      inflight := inflight + {a};
    }

    /** `TimerIdff(timer,timer->sequence())`: it reads the timer, which must not have been deleted. */
    method ReturnId(a: nat) returns (id: TimerId)
      requires a in heap
      ensures id.addr == a && Live(View(), id)
    {
      id := TimerId(a, heap[a].sequence);
    }

    /** `addTimer` on the loop thread: the timer is inserted at once, and the id returned is its own. */
    method AddTimer(a: nat, when: int, repeat: bool, micros: nat, clock: int) returns (id: TimerId)
      requires Inv(View()) && a !in heap && a < UINTPTR_MAX
      modifies this
      ensures Inv(View())
      ensures View() == AddInLoop(Create(old(View()), a, when, repeat, micros), a, clock)
      ensures id == TimerId(a, old(created) + 1) && Live(View(), id) && id in active
      ensures heap[a].expire == when && heap[a].repeat == repeat && heap[a].micros == micros
      ensures Node(when, a) in timers
    {
      NewTimer(a, when, repeat, micros);
      AddTimerInLoop(a, clock);
      id := ReturnId(a);
    }

    method InsertTimer(a: nat) returns (earliestChanged: bool)
      requires a in heap
      modifies this`timers, this`active
      ensures View() == Insert(old(View()), a)
      ensures earliestChanged <==> forall n :: n in old(timers) ==> heap[a].expire < n.expire
    {
      earliestChanged := false;
      var when := heap[a].expire;
      if timers == {} || when < First(timers).expire {
        earliestChanged := true;
      }
      timers := timers + {Node(when, a)};
      active := active + {TimerId(a, heap[a].sequence)};
    }

    method AddTimerInLoop(a: nat, clock: int)
      requires Inv(View()) && a in inflight
      modifies this
      ensures Inv(View()) && View() == AddInLoop(old(View()), a, clock)
    {
      AddKeepsInv(View(), a, clock);
      EarliestChangedMeans(timers, heap[a].expire);
      inflight := inflight - {a};
      var earliestChanged := InsertTimer(a);
      if earliestChanged {
        fd := Arm(heap[a].expire, clock);
      }
    }

    method CancelInLoop(id: TimerId)
      requires Inv(View())
      modifies this
      ensures Inv(View()) && View() == Cancel(old(View()), id)
      ensures canceling == old(canceling) + if id !in old(active) && old(calling) then {id} else {}
    {
      CancelKeepsInv(View(), id);
      if id in active {
        timers := timers - {Node(heap[id.addr].expire, id.addr)};
        heap := heap - {id.addr};
        active := active - {id};
      } else if calling {
        canceling := canceling + {id};
      }
    }

    /** Cut the expired prefix off the ordered index, then erase the same timers from the other one. */
    method GetExpiredTimer(now: int) returns (expired: seq<Node>)
      requires forall n :: n in timers ==> n.addr in heap
      modifies this`timers, this`active
      ensures expired == InOrder(Expired(old(timers), now))
      ensures timers == old(timers) - Expired(old(timers), now)
      ensures active == old(active) - (set n | n in Expired(old(timers), now) :: IdOf(heap, n))
    {
      expired := CutExpired(now);
      assert forall n :: n in expired <==> n in Expired(old(timers), now);
      EraseActive(expired);
    }

    /** `lower_bound`, `copy` and `erase` on the ordered index. */
    method CutExpired(now: int) returns (expired: seq<Node>)
      modifies this`timers
      ensures expired == InOrder(Expired(old(timers), now))
      ensures timers == old(timers) - Expired(old(timers), now)
    {
      ghost var all := timers;
      expired := [];
      assert timers + Expired(all, now) == all;
      while timers != {} && Less(First(timers), Node(now, UINTPTR_MAX))
        invariant timers + Expired(all, now) == all
        invariant expired + InOrder(Expired(timers, now)) == InOrder(Expired(all, now))
        decreases timers
      {
        var first := First(timers);
        ExpiredTail(timers, now);
        CutOne(all, timers, now);
        Associate(expired, first, InOrder(Expired(timers - {first}, now)));
        expired := expired + [first];
        timers := timers - {first};
      }
      NothingExpired(all, timers, now);
    }

    method EraseActive(expired: seq<Node>)
      requires forall n :: n in expired ==> n.addr in heap
      modifies this`active
      ensures active == old(active) - (set n | n in expired :: IdOf(heap, n))
    {
      var i := 0;
      while i < |expired|
        invariant 0 <= i <= |expired|
        invariant active == old(active) - (set n | n in expired[..i] :: IdOf(heap, n))
      {
        assert expired[..i + 1] == expired[..i] + [expired[i]];
        active := active - {IdOf(heap, expired[i])};
        i := i + 1;
      }
      assert expired[..i] == expired;
    }

    /** One timer of the batch: restart it or delete it. */
    method ResetTimer(n: Node, now: int)
      requires n.addr in heap
      modifies this`heap, this`timers, this`active
      ensures View() == ResetOne(old(View()), n, now)
    {
      if heap[n.addr].repeat && IdOf(heap, n) !in canceling {
        heap := heap[n.addr := heap[n.addr].(expire := now + heap[n.addr].micros)];
        var _ := InsertTimer(n.addr);
      } else {
        heap := heap - {n.addr};
      }
    }

    /** `reset`, after the callbacks have run. */
    method Reset(expired: seq<Node>, now: int, clock: int)
      requires Core(View(), Elems(expired)) && Sorted(expired)
      modifies this`heap, this`timers, this`active, this`fd
      ensures View() == Rearm(ResetAll(old(View()), expired, now), clock)
    {
      hide IndexesAgree, OneOwner, UniqueSequences, Keyed;
      ghost var start := View();
      var i := 0;
      assert expired[0..] == expired;
      while i < |expired|
        invariant 0 <= i <= |expired|
        invariant Sorted(expired[i..]) && Core(View(), Elems(expired[i..]))
        invariant ResetAll(View(), expired[i..], now) == ResetAll(start, expired, now)
      {
        assert expired[i..][0] == expired[i] && expired[i..][1..] == expired[i + 1..];
        ResetStep(View(), expired[i..], now);
        ResetTimer(expired[i], now);
        i := i + 1;
      }
      assert expired[i..] == [];
      if timers != {} {
        var nextExpire := First(timers).expire;
        if nextExpire != 0 {
          fd := Arm(nextExpire, clock);
        }
      }
    }

    /** What can happen while a callback runs: other threads allocate timers, the loop thread adds and cancels. */
    method Perform(e: Event)
      requires Inv(View()) && DuringCallback(e)
      modifies this
      ensures Inv(View()) && View() == Step(old(View()), e)
    {
      match e
      case CreateTimer(a, when, repeat, micros) =>
        if a !in heap && a < UINTPTR_MAX {
          NewTimer(a, when, repeat, micros);
        }
      case AddTimerInLoop(a, clock) =>
        if a in inflight {
          AddTimerInLoop(a, clock);
        }
      case CancelTimer(id) =>
        CancelInLoop(id);
    }

    /** The body of a callback: any sequence of actions. */
    method PerformAll(actions: seq<Event>)
      requires Inv(View())
      requires forall e :: e in actions ==> DuringCallback(e)
      modifies this
      ensures Inv(View()) && View() == Run(old(View()), actions)
      ensures phase == old(phase)
    {
      hide Core, Step, Enabled;
      ghost var start := View();
      var i := 0;
      assert actions[..0] == [];
      while i < |actions|
        invariant 0 <= i <= |actions|
        invariant Inv(View()) && View() == Run(start, actions[..i])
        invariant phase == start.phase
      {
        assert actions[i] in actions;
        ActionKeepsPhase(View(), actions[i]);
        RunSnoc(start, actions[..i], actions[i]);
        assert actions[..i] + [actions[i]] == actions[..i + 1];
        Perform(actions[i]);
        i := i + 1;
      }
      assert actions[..i] == actions;
    }

    /** The handler calls the next timer of its batch. */
    method StartCallback(n: Node)
      requires Inv(View()) && phase.Firing? && phase.done < |phase.batch| && phase.batch[phase.done] == n
      modifies this`ran, this`phase
      ensures Inv(View()) && View() == Step(old(View()), RunCallback)
      ensures phase == old(phase).(done := old(phase).done + 1)
    {
      RunNextKeepsInv(View());
      ran := ran + [IdOf(heap, n)];
      phase := phase.(done := phase.done + 1);
    }

    /** `timer.second->run()`. */
    method RunTimer(n: Node, actions: seq<Event>)
      requires Inv(View()) && phase.Firing? && phase.done < |phase.batch| && phase.batch[phase.done] == n
      requires forall e :: e in actions ==> DuringCallback(e)
      modifies this
      ensures Inv(View()) && View() == Run(old(View()), [RunCallback] + actions)
      ensures phase == old(phase).(done := old(phase).done + 1)
    {
      RunCons(View(), RunCallback, actions);
      StartCallback(n);
      PerformAll(actions);
    }

    /** The first half of the handler. */
    method BeginHandler(now: int, readAt: int) returns (expired: seq<Node>)
      requires Inv(View()) && phase.Idle? && 0 < now
      modifies this
      ensures Inv(View()) && View() == Step(old(View()), BeginFiring(now, readAt))
      ensures phase.Firing? && expired == phase.batch && phase.done == 0 && phase.now == now
      ensures expired == InOrder(Expired(old(timers), now))
    {
      FireBeginKeepsInv(View(), now, readAt);
      if fd.Armed? && fd.deadline <= readAt {
        fd := Disarmed;
      }
      expired := GetExpiredTimer(now);
      calling := true;
      canceling := {};
      phase := Firing(expired, 0, now, |ran|);
    }

    /** The loop over the expired timers. */
    method RunBatch(expired: seq<Node>, callbacks: nat -> seq<Event>)
      requires Inv(View()) && phase.Firing? && phase.batch == expired && phase.done == 0
      requires forall k: nat, e :: e in callbacks(k) ==> DuringCallback(e)
      modifies this
      ensures Inv(View()) && View() == Run(old(View()), Turns(callbacks, |expired|))
      ensures phase == old(phase).(done := |expired|)
    {
      hide Core, Step, Enabled;
      ghost var start := View();
      var i := 0;
      while i < |expired|
        invariant 0 <= i <= |expired|
        invariant Inv(View()) && View() == Run(start, Turns(callbacks, i))
        invariant phase == start.phase.(done := i)
      {
        RunAppend(start, Turns(callbacks, i), [RunCallback] + callbacks(i));
        RunTimer(expired[i], callbacks(i));
        i := i + 1;
      }
    }

    /** The end of the handler. */
    method EndHandler(expired: seq<Node>, now: int, clock: int)
      requires Inv(View()) && phase.Firing? && phase.batch == expired && phase.done == |expired| && phase.now == now
      modifies this
      ensures Inv(View()) && View() == Step(old(View()), EndFiring(clock)) && phase.Idle?
    {
      hide Core, Inv, Step, Sorted;
      StepKeepsInv(View(), EndFiring(clock));
      EndFiringStep(View(), clock);
      calling := false;
      phase := Idle;
      Reset(expired, now, clock);
    }

    /** The whole handler, for any behaviour of the callbacks: it takes the expired timers, runs each of them,
        and ends the firing.  It is one run of the small steps. */
    method HandleTimerfdRead(now: int, readAt: int, clock: int, callbacks: nat -> seq<Event>)
      requires Inv(View()) && phase.Idle? && 0 < now
      requires forall k: nat, e :: e in callbacks(k) ==> DuringCallback(e)
      modifies this
      ensures Inv(View()) && phase.Idle?
      ensures View() == Run(old(View()),
        [BeginFiring(now, readAt)] + Turns(callbacks, |InOrder(Expired(old(timers), now))|) + [EndFiring(clock)])
    {
      ghost var start := View();
      var expired := BeginHandler(now, readAt);
      RunCons(start, BeginFiring(now, readAt), Turns(callbacks, |expired|));
      RunBatch(expired, callbacks);
      RunSnoc(start, [BeginFiring(now, readAt)] + Turns(callbacks, |expired|), EndFiring(clock));
      EndHandler(expired, now, clock);
    }
  }

  predicate DuringCallback(e: Event) {
    e.CreateTimer? || e.AddTimerInLoop? || e.CancelTimer?
  }

  /** What the loop over the expired timers does: run each, and whatever its callback does. */
  function Turns(callbacks: nat -> seq<Event>, n: nat): seq<Event> {
    if n == 0 then [] else Turns(callbacks, n - 1) + ([RunCallback] + callbacks(n - 1))
  }

  lemma EarliestChangedMeans(ns: set<Node>, when: int)
    ensures EarliestChanged(ns, when) <==> forall n :: n in ns ==> when < n.expire
  {
    if ns != {} {
      assert First(ns) in ns;
    }
  }

  /** Taking the first node off an index takes the first node off its expired part. */
  lemma ExpiredTail(ns: set<Node>, now: int)
    requires ns != {} && Less(First(ns), Node(now, UINTPTR_MAX))
    ensures First(ns) in Expired(ns, now)
    ensures InOrder(Expired(ns, now)) == [First(ns)] + InOrder(Expired(ns - {First(ns)}, now))
  {
    var due := Expired(ns, now);
    assert First(ns) in due;
    assert First(due) == First(ns) by {
      assert First(due) in ns;
      assert First(due) != First(ns) ==> Less(First(ns), First(due)) && Less(First(due), First(ns));
    }
    assert due - {First(ns)} == Expired(ns - {First(ns)}, now);
  }

  lemma Associate(xs: seq<Node>, x: Node, ys: seq<Node>)
    ensures xs + [x] + ys == xs + ([x] + ys)
  {
  }

  lemma CutOne(all: set<Node>, ns: set<Node>, now: int)
    requires ns + Expired(all, now) == all
    requires ns != {} && Less(First(ns), Node(now, UINTPTR_MAX))
    ensures (ns - {First(ns)}) + Expired(all, now) == all
  {
    assert First(ns) in Expired(all, now);
  }

  lemma NothingExpired(all: set<Node>, ns: set<Node>, now: int)
    requires ns + Expired(all, now) == all
    requires ns != {} ==> !Less(First(ns), Node(now, UINTPTR_MAX))
    ensures InOrder(Expired(ns, now)) == [] && ns == all - Expired(all, now)
  {
    forall n | n in ns ensures !Less(n, Node(now, UINTPTR_MAX)) {
      assert n == First(ns) || Less(First(ns), n);
    }
    assert Expired(ns, now) == {};
  }

  lemma ActionKeepsPhase(s: State, e: Event)
    requires Inv(s) && DuringCallback(e)
    ensures Step(s, e).phase == s.phase
  {
  }
}
