/** What the timer queue promises, over every run of its small steps. */
module TimerQueueTheorems {
  import opened TimerQueue

  // ---------------------------------------------------------------- ownership

  /** The two asserts on sizes in net/TimerQueueff.cpp hold, because the second index is an injective image. */
  lemma {:induction false} SizesAgree(heap: map<nat, Timer>, ns: set<Node>)
    requires forall n :: n in ns ==> n.addr in heap && heap[n.addr].expire == n.expire
    ensures |set n | n in ns :: IdOf(heap, n)| == |ns|
  {
    var ids := set n | n in ns :: IdOf(heap, n);
    if ns == {} {
      assert ids == {};
    } else {
      var x :| x in ns;
      SizesAgree(heap, ns - {x});
      assert ids == (set n | n in ns - {x} :: IdOf(heap, n)) + {IdOf(heap, x)};
    }
  }

  lemma ActiveIsImage(s: State)
    requires Keyed(s, s.timers) && IndexesAgree(s)
    ensures s.active == (set n | n in s.timers :: IdOf(s.heap, n))
    ensures |s.timers| == |s.active|
  {
    SizesAgree(s.heap, s.timers);
    forall id ensures id in s.active <==> exists n :: n in s.timers && IdOf(s.heap, n) == id {
      if id in s.active {
        assert Holds(s, s.timers, id.addr);
        assert Node(s.heap[id.addr].expire, id.addr) in s.timers;
      }
    }
  }

  function AddrsOf(ns: set<Node>): set<nat> {
    set n | n in ns :: n.addr
  }

  lemma AddrsHeld(s: State, ns: set<Node>)
    requires Keyed(s, ns)
    ensures forall a :: a in AddrsOf(ns) <==> Holds(s, ns, a)
  {
    forall a | Holds(s, ns, a) ensures a in AddrsOf(ns) {
      assert Node(s.heap[a].expire, a) in ns;
    }
  }

  /** In every state a run can reach: the indexes agree in content and size, every key is its timer's expiry,
      and the live timers are exactly the indexed ones, the current batch and the ones still being added,
      with no timer in two places. */
  lemma LiveTimersHaveOneOwner(es: seq<Event>)
    ensures Inv(Init())
    ensures var s := Run(Init(), es);
            && (forall n :: n in s.timers || n in Elems(Batch(s)) ==>
              n.addr in s.heap && s.heap[n.addr].expire == n.expire)
            && s.active == (set n | n in s.timers :: IdOf(s.heap, n))
            && |s.timers| == |s.active|
            && s.heap.Keys == AddrsOf(s.timers) + AddrsOf(Elems(Batch(s))) + s.inflight
            && AddrsOf(s.timers) !! AddrsOf(Elems(Batch(s))) !! s.inflight
  {
    assert Elems(Batch(Init())) == {};
    var s := Run(Init(), es);
    ActiveIsImage(s);
    AddrsHeld(s, s.timers);
    AddrsHeld(s, Elems(Batch(s)));
  }

  // ---------------------------------------------------------------- what one firing does

  predicate Restarted(s: State, n: Node)
    requires n.addr in s.heap
  {
    s.heap[n.addr].repeat && IdOf(s.heap, n) !in s.canceling
  }

  function RestartKeys(s: State, b: seq<Node>, now: int): set<Node>
    requires forall n :: n in b ==> n.addr in s.heap
  {
    set n | n in b && Restarted(s, n) :: Node(now + s.heap[n.addr].micros, n.addr)
  }

  function DroppedAddrs(s: State, b: seq<Node>): set<nat>
    requires forall n :: n in b ==> n.addr in s.heap
  {
    set n | n in b && !Restarted(s, n) :: n.addr
  }

  lemma KeyedBatch(s: State, b: seq<Node>)
    requires Core(s, Elems(b))
    ensures forall n :: n in b ==> n.addr in s.heap && s.heap[n.addr].expire == n.expire
  {
    assert forall n :: n in b ==> n in Elems(b);
  }

  /** One turn of `reset` affects only its own timer. */
  lemma ResetOneFrame(s: State, b: seq<Node>, now: int)
    requires Core(s, Elems(b)) && Sorted(b) && b != []
    ensures forall n :: n in b ==> n.addr in s.heap
    ensures var t := ResetOne(s, b[0], now);
            && (forall n :: n in b[1..] ==>
              n.addr != b[0].addr && n.addr in t.heap && t.heap[n.addr] == s.heap[n.addr])
            && t.canceling == s.canceling
  {
    KeyedBatch(s, b);
    assert b == [b[0]] + b[1..];
    forall n | n in b[1..] ensures n.addr != b[0].addr {
      var k :| 0 <= k < |b| - 1 && b[1..][k] == n;
      assert Less(b[0], b[k + 1]);
    }
  }

  function KeyOf(s: State, n: Node, now: int): set<Node>
    requires n.addr in s.heap
  {
    if Restarted(s, n) then {Node(now + s.heap[n.addr].micros, n.addr)} else {}
  }

  function GoneOf(s: State, n: Node): set<nat>
    requires n.addr in s.heap
  {
    if Restarted(s, n) then {} else {n.addr}
  }

  lemma ResetOneEffect(s: State, n: Node, now: int)
    requires n.addr in s.heap
    ensures ResetOne(s, n, now).timers == s.timers + KeyOf(s, n, now)
    ensures ResetOne(s, n, now).heap.Keys == s.heap.Keys - GoneOf(s, n)
  {
  }

  lemma RestartKeysSplit(s: State, t: State, b: seq<Node>, now: int)
    requires b != [] && t.canceling == s.canceling
    requires forall n :: n in b ==> n.addr in s.heap
    requires forall n :: n in b[1..] ==> n.addr in t.heap && t.heap[n.addr] == s.heap[n.addr]
    ensures RestartKeys(s, b, now) == KeyOf(s, b[0], now) + RestartKeys(t, b[1..], now)
    ensures DroppedAddrs(s, b) == GoneOf(s, b[0]) + DroppedAddrs(t, b[1..])
  {
    assert forall n :: n in b <==> n == b[0] || n in b[1..] by { assert b == [b[0]] + b[1..]; }
    assert forall n :: n in b[1..] ==> (Restarted(s, n) <==> Restarted(t, n));
  }

  lemma Regroup(a: set<Node>, x: set<Node>, r: set<Node>, k: set<nat>, g: set<nat>, d: set<nat>)
    ensures (a + x) + r == a + (x + r) && (k - g) - d == k - (g + d)
  {
  }

  /** `reset` puts back exactly the repeating timers nobody cancelled, keyed at now plus their interval,
      deletes every other timer of the batch, and changes nothing else. */
  lemma {:induction false} ResetExact(s: State, b: seq<Node>, now: int)
    requires Core(s, Elems(b)) && Sorted(b)
    ensures forall n :: n in b ==> n.addr in s.heap
    ensures ResetAll(s, b, now).timers == s.timers + RestartKeys(s, b, now)
    ensures ResetAll(s, b, now).heap.Keys == s.heap.Keys - DroppedAddrs(s, b)
    decreases |b|
  {
    KeyedBatch(s, b);
    if b == [] {
      assert RestartKeys(s, b, now) == {} && DroppedAddrs(s, b) == {};
    } else {
      var t := ResetOne(s, b[0], now);
      ResetStep(s, b, now);
      ResetOneFrame(s, b, now);
      ResetOneEffect(s, b[0], now);
      RestartKeysSplit(s, t, b, now);
      ResetExact(t, b[1..], now);
      Regroup(s.timers, KeyOf(s, b[0], now), RestartKeys(t, b[1..], now),
              s.heap.Keys, GoneOf(s, b[0]), DroppedAddrs(t, b[1..]));
    }
  }

  /** `reset` leaves alone every timer outside the batch. */
  lemma {:induction false} ResetKeepsOtherTimers(s: State, b: seq<Node>, now: int, a: nat)
    requires Core(s, Elems(b)) && Sorted(b)
    requires a in s.heap && forall n :: n in b ==> n.addr != a
    ensures a in ResetAll(s, b, now).heap && ResetAll(s, b, now).heap[a] == s.heap[a]
    decreases |b|
  {
    if b != [] {
      ResetStep(s, b, now);
      hide Core, Sorted;
      assert b[0] in b;
      assert forall n :: n in b[1..] ==> n in b;
      ResetKeepsOtherTimers(ResetOne(s, b[0], now), b[1..], now, a);
    }
  }

  /** A restarted timer is the same timer with a new expiry. */
  lemma {:induction false} ResetRestartsTimer(s: State, b: seq<Node>, now: int, n: Node)
    requires Core(s, Elems(b)) && Sorted(b) && n in b
    ensures n.addr in s.heap
    ensures Restarted(s, n) ==>
      && n.addr in ResetAll(s, b, now).heap
      && ResetAll(s, b, now).heap[n.addr] == s.heap[n.addr].(expire := now + s.heap[n.addr].micros)
    decreases |b|
  {
    hide Core, Sorted;
    KeyedBatch(s, b);
    ResetStep(s, b, now);
    ResetOneFrame(s, b, now);
    assert b == [b[0]] + b[1..];
    if n != b[0] {
      ResetRestartsTimer(ResetOne(s, b[0], now), b[1..], now, n);
    } else if Restarted(s, n) {
      ResetKeepsOtherTimers(ResetOne(s, n, now), b[1..], now, n.addr);
    }
  }

  // ---------------------------------------------------------------- one firing, with callbacks in between

  predicate StaysFiring(es: seq<Event>) {
    forall k :: 0 <= k < |es| ==> !es[k].EndFiring?
  }

  /** A step inside a firing leaves the batch, its timers and the log before it alone. */
  lemma FiringStep(s: State, e: Event)
    requires Inv(s) && s.phase.Firing? && !e.EndFiring?
    ensures forall n :: n in Batch(s) ==> n.addr in s.heap
    ensures var r := Step(s, e);
            && r.phase.Firing? && r.phase.batch == s.phase.batch && r.phase.now == s.phase.now
            && r.phase.mark == s.phase.mark
            && s.ran <= r.ran
            && (forall n :: n in Batch(s) ==> n.addr in r.heap && r.heap[n.addr] == s.heap[n.addr])
  {
    KeyedBatch(s, Batch(s));
    forall n | n in Batch(s) ensures n.addr !in s.inflight {
      assert n in Elems(Batch(s));
      assert Holds(s, Elems(Batch(s)), n.addr);
    }
    match e
    case CancelTimer(id) => CancelSparesBatch(s, id);
    case _ =>
  }

  lemma {:induction false} FiringProgress(s: State, es: seq<Event>)
    requires Inv(s) && s.phase.Firing? && StaysFiring(es)
    ensures forall n :: n in Batch(s) ==> n.addr in s.heap
    ensures var r := Run(s, es);
            && r.phase.Firing? && r.phase.batch == s.phase.batch && r.phase.now == s.phase.now
            && r.phase.mark == s.phase.mark
            && s.ran <= r.ran
            && (forall n :: n in Batch(s) ==> n.addr in r.heap && r.heap[n.addr] == s.heap[n.addr])
    decreases |es|
  {
    KeyedBatch(s, Batch(s));
    if es != [] {
      FiringStep(s, es[0]);
      StepKeepsInv(s, es[0]);
      assert forall k :: 0 <= k < |es| - 1 ==> es[1..][k] == es[k + 1];
      FiringProgress(Step(s, es[0]), es[1..]);
    }
  }

  /** A firing takes exactly the timers with expiry at most `now`, in expiry order.  Whatever its callbacks
      and other threads do meanwhile, it runs each of them once and nothing else: when it can end,
      the log has grown by exactly the ids of that batch. */
  lemma FiringRunsExactlyTheExpired(s: State, now: int, readAt: int, es: seq<Event>)
    requires Inv(s) && s.phase.Idle? && 0 < now && StaysFiring(es)
    ensures Inv(Step(s, BeginFiring(now, readAt)))
    ensures forall n :: n in s.timers ==> n.addr in s.heap
    ensures var f := Run(Step(s, BeginFiring(now, readAt)), es);
            && f.phase.Firing? && f.phase.now == now
            && f.phase.batch == InOrder(set n | n in s.timers && n.expire <= now)
            && f.phase.done <= |f.phase.batch|
            && LogGrewBy(s, f, f.phase.batch[..f.phase.done])
            && (Enabled(f, EndFiring(now)) <==> f.phase.done == |f.phase.batch|)
  {
    BeginFiringShape(s, now, readAt);
    var b := Step(s, BeginFiring(now, readAt));
    hide Inv, Core, Step, IdOf, LogGrewBy;
    ExpiredIsDue(s, now);
    FiringProgress(b, es);
    FiredIds(s, Run(b, es));
  }

  lemma BeginFiringShape(s: State, now: int, readAt: int)
    requires Inv(s) && s.phase.Idle? && 0 < now
    ensures Inv(Step(s, BeginFiring(now, readAt)))
    ensures forall n :: n in s.timers ==> n.addr in s.heap
    ensures var b := Step(s, BeginFiring(now, readAt));
            && b.phase == Firing(InOrder(Expired(s.timers, now)), 0, now, |s.ran|)
            && b.heap == s.heap && b.ran == s.ran && b.canceling == {}
            && (forall n :: n in b.phase.batch ==> n.addr in s.heap)
  {
    FireBeginKeepsInv(s, now, readAt);
    assert Keyed(s, s.timers);
  }

  /** The log of `f` is that of `s` followed by exactly the ids, as of `s`, of the timers `ns`. */
  predicate LogGrewBy(s: State, f: State, ns: seq<Node>) {
    && s.ran <= f.ran && |f.ran| == |s.ran| + |ns|
    && forall k :: 0 <= k < |ns| ==> ns[k].addr in s.heap && f.ran[|s.ran| + k] == IdOf(s.heap, ns[k])
  }

  lemma FiredIds(s: State, f: State)
    requires Inv(f) && f.phase.Firing? && s.ran <= f.ran && |s.ran| == f.phase.mark
    requires forall n :: n in f.phase.batch ==>
      n.addr in s.heap && n.addr in f.heap && s.heap[n.addr] == f.heap[n.addr]
    ensures f.phase.done <= |f.phase.batch|
    ensures LogGrewBy(s, f, f.phase.batch[..f.phase.done])
  {
    hide Core;
    forall k | 0 <= k < f.phase.done
      ensures f.phase.batch[k].addr in s.heap && f.ran[|s.ran| + k] == IdOf(s.heap, f.phase.batch[k])
    {
      assert f.phase.batch[k] in f.phase.batch;
      assert f.ran[f.phase.mark + k] == IdOf(f.heap, f.phase.batch[k]);
    }
  }

  lemma ExpiredIsDue(s: State, now: int)
    requires Inv(s)
    ensures Expired(s.timers, now) == (set n | n in s.timers && n.expire <= now)
  {
    forall n | n in s.timers ensures Less(n, Node(now, UINTPTR_MAX)) <==> n.expire <= now {
      assert Holds(s, s.timers, n.addr);
    }
  }

  lemma EndCallingSame(s: State)
    requires Inv(s) && s.phase.Firing?
    ensures Core(EndCalling(s), Elems(s.phase.batch)) && Sorted(s.phase.batch)
    ensures forall n :: n in s.phase.batch ==> n.addr in s.heap
    ensures RestartKeys(EndCalling(s), s.phase.batch, s.phase.now) == RestartKeys(s, s.phase.batch, s.phase.now)
    ensures DroppedAddrs(EndCalling(s), s.phase.batch) == DroppedAddrs(s, s.phase.batch)
  {
    KeyedBatch(s, s.phase.batch);
    CoreDependsOnIndexesOnly(s, EndCalling(s), Elems(s.phase.batch));
  }

  lemma EndFiringStep(s: State, clock: int)
    requires Inv(s) && Enabled(s, EndFiring(clock))
    ensures Core(EndCalling(s), Elems(s.phase.batch)) && Sorted(s.phase.batch)
    ensures Step(s, EndFiring(clock)) == Rearm(ResetAll(EndCalling(s), s.phase.batch, s.phase.now), clock)
  {
    EndCallingSame(s);
  }

  /** When the firing ends, the uncancelled repeating timers of the batch are back, keyed at now plus their
      interval, and every other timer of the batch has been deleted. */
  lemma FiringEndsExactly(s: State, clock: int)
    requires Inv(s) && Enabled(s, EndFiring(clock))
    ensures forall n :: n in s.phase.batch ==> n.addr in s.heap
    ensures var f := Step(s, EndFiring(clock));
            && f.phase.Idle? && !f.calling
            && f.timers == s.timers + RestartKeys(s, s.phase.batch, s.phase.now)
            && f.heap.Keys == s.heap.Keys - DroppedAddrs(s, s.phase.batch)
            && f.ran == s.ran && f.inflight == s.inflight
  {
    EndFiringStep(s, clock);
    EndCallingSame(s);
    hide Core, Inv, Step, RestartKeys, DroppedAddrs, Sorted;
    ResetExact(EndCalling(s), s.phase.batch, s.phase.now);
  }

  // ---------------------------------------------------------------- the descriptor stays armed

  /** The earliest timer has a wakeup: the deadline is no later than its expiry, or than the shortest
      delay after the descriptor was last set. */
  predicate Covered(s: State) {
    s.timers != {} ==>
      && s.fd.Armed?
      && (s.fd.deadline <= First(s.timers).expire || s.fd.deadline <= s.fd.setAt + MIN_DELAY)
  }

  /** While the handler runs, only timers that are already due must be covered; `reset` sees to the rest. */
  predicate Wakeable(s: State) {
    match s.phase
    case Idle => Covered(s)
    case Firing(_, _, now, _) => s.timers != {} && First(s.timers).expire <= now ==> Covered(s)
  }

  lemma AddStaysWakeable(s: State, a: nat, clock: int)
    requires Wakeable(s) && a in s.heap
    ensures Wakeable(AddInLoop(s, a, clock))
  {
    var n := Node(s.heap[a].expire, a);
    var first := First(s.timers + {n});
    if s.timers != {} {
      assert First(s.timers) in s.timers + {n};
      assert first == n || first in s.timers;
    } else {
      assert first == n;
    }
  }

  lemma CancelStaysWakeable(s: State, id: TimerId)
    requires Inv(s) && Wakeable(s)
    ensures Wakeable(Cancel(s, id))
  {
    if id in s.active {
      var left := s.timers - {Node(s.heap[id.addr].expire, id.addr)};
      if left != {} {
        assert First(left) in s.timers;
      }
    }
  }

  lemma EndStaysWakeable(s: State, clock: int)
    requires Inv(s) && s.phase.Firing? && Wakeable(s)
    ensures Wakeable(FireEnd(s, clock))
  {
    hide Core, Sorted;
    KeyedBatch(s, s.phase.batch);
    CoreDependsOnIndexesOnly(s, EndCalling(s), Elems(s.phase.batch));
    ResetExact(EndCalling(s), s.phase.batch, s.phase.now);
    var r := ResetAll(EndCalling(s), s.phase.batch, s.phase.now);
    if r.timers != {} && First(r.timers).expire == 0 {
      // The invalid time 0 is before `now`, so no restarted timer has it: some callback added it and armed for it.
      assert First(r.timers) in s.timers;
      assert First(s.timers) in r.timers;
    }
  }

  lemma StepStaysWakeable(s: State, e: Event)
    requires Inv(s) && Wakeable(s)
    ensures Inv(Step(s, e)) && Wakeable(Step(s, e))
  {
    StepKeepsInv(s, e);
    if Enabled(s, e) {
      match e
      case CreateTimer(_, _, _, _) =>
      case AddTimerInLoop(a, clock) => AddStaysWakeable(s, a, clock);
      case CancelTimer(id) => CancelStaysWakeable(s, id);
      case BeginFiring(now, readAt) => NothingDueAfterTaking(s, now, readAt);
      case RunCallback =>
      case EndFiring(clock) => EndStaysWakeable(s, clock);
    }
  }

  lemma NothingDueAfterTaking(s: State, now: int, readAt: int)
    requires Inv(s)
    ensures var r := FireBegin(s, now, readAt);
            forall n :: n in r.timers ==> now < n.expire
  {
    assert forall n :: n in s.timers ==> Holds(s, s.timers, n.addr);
  }

  /** Whenever the handler is not running and a timer is waiting, the descriptor is armed early enough for the
      earliest one: cancelling the head, adding timers from callbacks, and the guard against the invalid
      time at the end of `reset` never leave the queue asleep. */
  lemma {:induction false} AlwaysWakeable(s: State, es: seq<Event>)
    requires Inv(s) && Wakeable(s)
    ensures Wakeable(Run(s, es))
    ensures Run(s, es).phase.Idle? && Run(s, es).timers != {} ==>
      var f := Run(s, es);
      f.fd.Armed? && (f.fd.deadline <= First(f.timers).expire || f.fd.deadline <= f.fd.setAt + MIN_DELAY)
    decreases |es|
  {
    if es != [] {
      StepStaysWakeable(s, es[0]);
      AlwaysWakeable(Step(s, es[0]), es[1..]);
    }
  }

  /** The empty queue is a good place to start. */
  lemma InitWakeable()
    ensures Inv(Init()) && Wakeable(Init())
  {
    assert Elems(Batch(Init())) == {};
  }

  /** So from the start on no run ever leaves a waiting timer without its wakeup. */
  lemma NeverAsleep(es: seq<Event>)
    ensures Inv(Init())
    ensures var f := Run(Init(), es);
            f.phase.Idle? && f.timers != {} ==>
              f.fd.Armed? && (f.fd.deadline <= First(f.timers).expire || f.fd.deadline <= f.fd.setAt + 100)
  {
    InitWakeable();
    AlwaysWakeable(Init(), es);
  }

  // ---------------------------------------------------------------- cancellation

  /** `id` can fire again only if the firing in progress still has it, and `reset` will then delete it. */
  predicate Dead(s: State, id: TimerId) {
    && id.sequence <= s.created
    && (Live(s, id) ==>
      && s.phase.Firing?
      && Holds(s, Elems(s.phase.batch), id.addr)
      && id in s.canceling)
  }

  /** Cancelling a live timer kills it if and only if the timer has reached the queue.  A cancel on the loop
      thread that overtakes another thread's pending `addTimerInLoop` is lost. */
  lemma CancelKillsUnlessInFlight(s: State, id: TimerId)
    requires Inv(s) && Live(s, id)
    ensures Dead(Cancel(s, id), id) <==> id.addr !in s.inflight
  {
    if id.addr in s.inflight {
      assert !Holds(s, s.timers, id.addr) && !Holds(s, Elems(Batch(s)), id.addr);
    } else if Holds(s, s.timers, id.addr) {
      assert id in s.active;
    } else {
      assert Holds(s, Elems(Batch(s)), id.addr);
      assert s.phase.Firing?;
    }
  }

  /** `id` does not appear in the log at or after position `from`, and never will again. */
  predicate Silent(s: State, id: TimerId, from: nat) {
    && Dead(s, id)
    && (forall k :: from <= k < |s.ran| ==> s.ran[k] != id)
    && (Live(s, id) ==> s.phase.mark + |s.phase.batch| <= from)
  }

  lemma DeadLeavesReset(s: State, b: seq<Node>, now: int, id: TimerId)
    requires Core(s, Elems(b)) && Sorted(b)
    requires Live(s, id) ==> Holds(s, Elems(b), id.addr) && id in s.canceling
    requires id.sequence <= s.created
    ensures !Live(ResetAll(s, b, now), id)
  {
    KeyedBatch(s, b);
    ResetExact(s, b, now);
    if Live(s, id) {
      var n := Node(s.heap[id.addr].expire, id.addr);
      assert n in b && !Restarted(s, n);
      assert id.addr in DroppedAddrs(s, b);
    } else if id.addr in s.heap {
      if n :| n in b && n.addr == id.addr {
        ResetRestartsTimer(s, b, now, n);
        assert Restarted(s, n) || n.addr in DroppedAddrs(s, b);
      } else {
        ResetKeepsOtherTimers(s, b, now, id.addr);
      }
    }
  }

  lemma StepStaysSilent(s: State, e: Event, id: TimerId, from: nat)
    requires Inv(s) && Silent(s, id, from)
    ensures Inv(Step(s, e)) && Silent(Step(s, e), id, from)
  {
    StepKeepsInv(s, e);
    hide Core, Sorted;
    if Enabled(s, e) {
      match e
      case CreateTimer(_, _, _, _) =>
      case AddTimerInLoop(_, _) =>
      case CancelTimer(_) =>
      case BeginFiring(_, _) =>
      case RunCallback => RunStaysSilent(s, id, from);
      case EndFiring(clock) => EndStaysSilent(s, clock, id, from);
    }
  }

  lemma EndStaysSilent(s: State, clock: int, id: TimerId, from: nat)
    requires Inv(s) && Silent(s, id, from) && Enabled(s, EndFiring(clock))
    ensures Silent(Step(s, EndFiring(clock)), id, from)
  {
    EndFiringStep(s, clock);
    hide Core, Inv, Step, Sorted;
    DeadLeavesReset(EndCalling(s), s.phase.batch, s.phase.now, id);
  }

  lemma RunStaysSilent(s: State, id: TimerId, from: nat)
    requires Inv(s) && Silent(s, id, from) && Enabled(s, RunCallback)
    ensures Inv(Step(s, RunCallback)) && Silent(Step(s, RunCallback), id, from)
  {
    StepKeepsInv(s, RunCallback);
    KeyedBatch(s, Batch(s));
    var n := s.phase.batch[s.phase.done];
    assert n in s.phase.batch;
    if IdOf(s.heap, n) == id {
      assert Live(s, id);
    }
  }

  lemma {:induction false} RunStaysDead(s: State, es: seq<Event>, id: TimerId, from: nat)
    requires Inv(s) && Silent(s, id, from)
    ensures Silent(Run(s, es), id, from)
    decreases |es|
  {
    if es != [] {
      StepStaysSilent(s, es[0], id, from);
      RunStaysDead(Step(s, es[0]), es[1..], id, from);
    }
  }

  /** Where the log will stand when the firing in progress has run its whole batch. */
  function EndOfBatch(s: State): nat {
    if s.phase.Firing? then s.phase.mark + |s.phase.batch| else |s.ran|
  }

  /** Cancellation is exact.  Once `cancelInLoop(id)` has run for a timer that has reached the queue, then in every
      continuation the timer never runs beyond the batch in progress, and once no firing is in progress
      it has been deleted, however often its address is reused. */
  lemma CancelledNeverRunsAgain(s: State, id: TimerId, es: seq<Event>)
    requires Inv(s) && id.sequence <= s.created
    requires !(Live(s, id) && id.addr in s.inflight)
    ensures Inv(Cancel(s, id))
    ensures var f := Run(Cancel(s, id), es);
            && (forall k :: EndOfBatch(s) <= k < |f.ran| ==> f.ran[k] != id)
            && (f.phase.Idle? ==> !Live(f, id))
  {
    CancelKeepsInv(s, id);
    var c := Cancel(s, id);
    if Live(s, id) {
      CancelKillsUnlessInFlight(s, id);
    }
    assert Dead(c, id);
    assert |s.ran| <= EndOfBatch(s);
    RunStaysDead(c, es, id, EndOfBatch(s));
  }

  /** A stale id affects no timer: cancelling it changes neither the heap nor an index nor the descriptor,
      and what `reset` later does to a batch that does not contain it is unchanged too. */
  lemma StaleCancelTouchesNothing(s: State, id: TimerId)
    requires Inv(s) && !Live(s, id)
    ensures Cancel(s, id).(canceling := s.canceling) == s
    ensures s.phase.Firing? ==>
      forall n :: n in s.phase.batch ==> n.addr in s.heap && (Restarted(s, n) <==> Restarted(Cancel(s, id), n))
  {
    assert id !in s.active;
    KeyedBatch(s, Batch(s));
  }
}
