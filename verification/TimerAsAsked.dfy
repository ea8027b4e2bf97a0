/** A timer does what its caller asked for, net/TimerQueueff.cpp and net/Timerff.cpp: it goes off in the first
    firing at its time or later, not before, and comes back at the end of that firing one interval later. */
module TimerAsAsked {
  import opened TimerQueue
  import opened TimerQueueTheorems

  /** The timer `id` is on its way to the queue or in it, due at `when`, with this interval. */
  predicate Waits(s: State, id: TimerId, when: int, repeat: bool, micros: nat) {
    && id.addr in s.heap && s.heap[id.addr] == Timer(when, repeat, micros, id.sequence)
    && (id.addr in s.inflight || Node(when, id.addr) in s.timers)
  }

  /** No cancel of `id`, and no firing at its time or later once it is queued. */
  ghost predicate NotYet(s: State, es: seq<Event>, id: TimerId, when: int)
    requires Inv(s)
    decreases |es|
  {
    es == [] ||
      (&& es[0] != CancelTimer(id)
       && (es[0].BeginFiring? ==> es[0].now < when || id.addr in s.inflight)
       && (StepKeepsInv(s, es[0]); NotYet(Step(s, es[0]), es[1..], id, when)))
  }

  lemma CreatedWaits(s: State, a: nat, when: int, repeat: bool, micros: nat)
    requires Inv(s) && a !in s.heap && a < UINTPTR_MAX
    ensures Inv(Create(s, a, when, repeat, micros))
    ensures Waits(Create(s, a, when, repeat, micros), TimerId(a, s.created + 1), when, repeat, micros)
    ensures a in Create(s, a, when, repeat, micros).inflight
  {
    CreateKeepsInv(s, a, when, repeat, micros);
  }

  /** It is in no batch while it waits. */
  lemma WaitingIsOutsideBatch(s: State, id: TimerId, when: int, repeat: bool, micros: nat)
    requires Inv(s) && Waits(s, id, when, repeat, micros)
    ensures Live(s, id) && forall n :: n in Batch(s) ==> n.addr != id.addr
  {
    assert id.addr !in s.inflight ==> Holds(s, s.timers, id.addr);
    forall n | n in Batch(s) ensures n.addr != id.addr {
      assert n in Elems(Batch(s));
      assert Holds(s, Elems(Batch(s)), n.addr);
    }
  }

  lemma CancelSparesWaiting(s: State, other: TimerId, id: TimerId, when: int, repeat: bool, micros: nat)
    requires Inv(s) && Waits(s, id, when, repeat, micros) && other != id
    ensures Waits(Cancel(s, other), id, when, repeat, micros)
  {
    if other in s.active {
      assert Live(s, other);
    }
  }

  lemma EndSparesWaiting(s: State, clock: int, id: TimerId, when: int, repeat: bool, micros: nat)
    requires Inv(s) && Waits(s, id, when, repeat, micros) && Enabled(s, EndFiring(clock))
    ensures Waits(Step(s, EndFiring(clock)), id, when, repeat, micros)
  {
    WaitingIsOutsideBatch(s, id, when, repeat, micros);
    EndFiringStep(s, clock);
    FiringEndsExactly(s, clock);
    hide Core, Inv, Step, Sorted;
    ResetKeepsOtherTimers(EndCalling(s), s.phase.batch, s.phase.now, id.addr);
  }

  lemma EarlyFiringSpares(s: State, now: int, readAt: int, id: TimerId, when: int, repeat: bool, micros: nat)
    requires Inv(s) && Waits(s, id, when, repeat, micros) && Enabled(s, BeginFiring(now, readAt))
    requires now < when || id.addr in s.inflight
    ensures Waits(Step(s, BeginFiring(now, readAt)), id, when, repeat, micros)
  {
    ExpiredIsDue(s, now);
  }

  lemma StepKeepsWaiting(s: State, e: Event, id: TimerId, when: int, repeat: bool, micros: nat)
    requires Inv(s) && Waits(s, id, when, repeat, micros) && e != CancelTimer(id)
    requires e.BeginFiring? ==> e.now < when || id.addr in s.inflight
    ensures Waits(Step(s, e), id, when, repeat, micros)
  {
    hide Core;
    if Enabled(s, e) {
      match e
      case CreateTimer(_, _, _, _) =>
      case AddTimerInLoop(_, _) =>
      case CancelTimer(other) => CancelSparesWaiting(s, other, id, when, repeat, micros);
      case BeginFiring(now, readAt) => EarlyFiringSpares(s, now, readAt, id, when, repeat, micros);
      case RunCallback =>
      case EndFiring(clock) => EndSparesWaiting(s, clock, id, when, repeat, micros);
    }
  }

  /** A timer goes off in no firing before its time: it keeps waiting, and is in no batch. */
  lemma {:induction false} NeverEarly(s: State, es: seq<Event>, id: TimerId, when: int, repeat: bool, micros: nat)
    requires Inv(s) && Waits(s, id, when, repeat, micros) && NotYet(s, es, id, when)
    ensures Waits(Run(s, es), id, when, repeat, micros)
    ensures forall n :: n in Batch(Run(s, es)) ==> n.addr != id.addr
    decreases |es|
  {
    hide Inv, Core, Step, Waits;
    if es == [] {
      WaitingIsOutsideBatch(s, id, when, repeat, micros);
    } else {
      StepKeepsInv(s, es[0]);
      StepKeepsWaiting(s, es[0], id, when, repeat, micros);
      NeverEarly(Step(s, es[0]), es[1..], id, when, repeat, micros);
    }
  }

  /** Once it is queued, a firing at its time or later takes it. */
  lemma TakenWhenDue(s: State, id: TimerId, when: int, repeat: bool, micros: nat, now: int, readAt: int)
    requires Inv(s) && Waits(s, id, when, repeat, micros) && id.addr !in s.inflight
    requires s.phase.Idle? && 0 < now && when <= now
    ensures var b := Step(s, BeginFiring(now, readAt));
            && Inv(b) && b.phase.Firing? && b.phase.now == now && Node(when, id.addr) in b.phase.batch
            && b.heap == s.heap
            && id.addr in b.heap && b.heap[id.addr] == Timer(when, repeat, micros, id.sequence)
            && id !in b.canceling
  {
    hide Inv, Core, Step;
    BeginFiringShape(s, now, readAt);
    ExpiredIsDue(s, now);
  }

  predicate NoCancelOf(es: seq<Event>, id: TimerId) {
    forall k :: 0 <= k < |es| ==> es[k] != CancelTimer(id)
  }

  lemma {:induction false} NotCanceling(s: State, es: seq<Event>, id: TimerId)
    requires Inv(s) && s.phase.Firing? && StaysFiring(es) && NoCancelOf(es, id) && id !in s.canceling
    ensures id !in Run(s, es).canceling
    decreases |es|
  {
    if es != [] {
      FiringStep(s, es[0]);
      StepKeepsInv(s, es[0]);
      StepNotCanceling(s, es[0], id);
      assert forall k :: 0 <= k < |es| - 1 ==> es[1..][k] == es[k + 1];
      NotCanceling(Step(s, es[0]), es[1..], id);
    }
  }

  lemma StepNotCanceling(s: State, e: Event, id: TimerId)
    requires Inv(s) && s.phase.Firing? && !e.EndFiring? && e != CancelTimer(id) && id !in s.canceling
    ensures id !in Step(s, e).canceling
  {
  }

  lemma BatchIsNotInflight(s: State, n: Node)
    requires Inv(s) && n in Batch(s)
    ensures n.addr in s.heap && n.addr !in s.inflight
  {
    assert n in Elems(Batch(s));
    BatchIsHeld(s, Elems(Batch(s)), n);
  }

  /** At the end of that firing, if nobody has cancelled it, a repeating timer waits again, due one interval
      after the time of the firing, and a one-shot timer is gone. */
  lemma ComesBackOrGoes(s: State, id: TimerId, when: int, repeat: bool, micros: nat, clock: int)
    requires Inv(s) && Enabled(s, EndFiring(clock)) && Node(when, id.addr) in s.phase.batch
    requires id.addr in s.heap && s.heap[id.addr] == Timer(when, repeat, micros, id.sequence) && id !in s.canceling
    ensures var f := Step(s, EndFiring(clock));
            if repeat then Waits(f, id, s.phase.now + micros, repeat, micros) && id.addr !in f.inflight
            else id.addr !in f.heap
  {
    hide Core, Inv, Step, Sorted;
    var n := Node(when, id.addr);
    BatchIsNotInflight(s, n);
    EndFiringStep(s, clock);
    FiringEndsExactly(s, clock);
    assert Restarted(s, n) <==> repeat;
    if repeat {
      ResetRestartsTimer(EndCalling(s), s.phase.batch, s.phase.now, n);
      assert Node(s.phase.now + micros, id.addr) in RestartKeys(s, s.phase.batch, s.phase.now);
    } else {
      assert id.addr in DroppedAddrs(s, s.phase.batch);
    }
  }

  /** The whole course of a timer from `addTimer` on.  As long as nobody cancels it, it is in no batch before
      its time, nor before it is queued; the first firing at its time or later that finds it queued runs it
      exactly once; and at the end of that firing it waits again, due one interval after the firing's time, or
      is gone. */
  lemma GoesOffAsAsked(s: State, a: nat, when: int, repeat: bool, micros: nat, before: seq<Event>,
                       now: int, readAt: int, during: seq<Event>, clock: int)
    requires Inv(s) && a !in s.heap && a < UINTPTR_MAX
    requires Inv(Create(s, a, when, repeat, micros))
    requires var id := TimerId(a, s.created + 1);
             && NotYet(Create(s, a, when, repeat, micros), before, id, when)
             && StaysFiring(during) && NoCancelOf(during, id)
    requires var u := Run(Create(s, a, when, repeat, micros), before);
             u.phase.Idle? && a !in u.inflight && 0 < now && when <= now
    ensures var id := TimerId(a, s.created + 1);
            var u := Run(Create(s, a, when, repeat, micros), before);
            var b := Step(u, BeginFiring(now, readAt));
            && Inv(b) && (forall n :: n in Batch(u) ==> n.addr != a) && Node(when, a) in b.phase.batch
            && var f := Run(b, during);
               Enabled(f, EndFiring(clock)) ==>
                 && RanOnce(u, f, id)
                 && var g := Step(f, EndFiring(clock));
                    if repeat then Waits(g, id, now + micros, repeat, micros) && a !in g.inflight else a !in g.heap
  {
    hide Inv, Core, Step, Waits, Create, Expired, Sorted;
    var id := TimerId(a, s.created + 1);
    CreatedWaits(s, a, when, repeat, micros);
    var t := Create(s, a, when, repeat, micros);
    var u := Run(t, before);
    NeverEarly(t, before, id, when, repeat, micros);
    FiringOfIt(u, id, when, repeat, micros, now, readAt, during, clock);
  }

  lemma FiringOfIt(u: State, id: TimerId, when: int, repeat: bool, micros: nat,
                   now: int, readAt: int, during: seq<Event>, clock: int)
    requires Inv(u) && Waits(u, id, when, repeat, micros) && u.phase.Idle? && id.addr !in u.inflight
    requires 0 < now && when <= now && StaysFiring(during) && NoCancelOf(during, id)
    ensures var b := Step(u, BeginFiring(now, readAt));
            && Inv(b) && b.phase.Firing? && Node(when, id.addr) in b.phase.batch
            && var f := Run(b, during);
               Enabled(f, EndFiring(clock)) ==>
                 && RanOnce(u, f, id)
                 && var g := Step(f, EndFiring(clock));
                    if repeat then Waits(g, id, now + micros, repeat, micros) && id.addr !in g.inflight
                    else id.addr !in g.heap
  {
    hide Inv, Core, Step, Waits, Expired, Sorted, LogGrewBy, RanOnce;
    TakenWhenDue(u, id, when, repeat, micros, now, readAt);
    FiringRunsExactlyTheExpired(u, now, readAt, during);
    var b := Step(u, BeginFiring(now, readAt));
    FiringProgress(b, during);
    NotCanceling(b, during, id);
    var f := Run(b, during);
    if Enabled(f, EndFiring(clock)) {
      BatchFacts(u, b, f, id, when, repeat, micros);
      LoggedOnce(u, f, Node(when, id.addr), id);
      ComesBackOrGoes(f, id, when, repeat, micros, clock);
    }
  }

  lemma BatchFacts(u: State, b: State, f: State, id: TimerId, when: int, repeat: bool, micros: nat)
    requires Inv(u) && Inv(f) && f.phase.Firing? && Node(when, id.addr) in f.phase.batch
    requires Waits(u, id, when, repeat, micros) && b.heap == u.heap
    requires forall n :: n in f.phase.batch ==> n.addr in b.heap && n.addr in f.heap && f.heap[n.addr] == b.heap[n.addr]
    ensures Sorted(f.phase.batch) && id.addr in u.heap && IdOf(u.heap, Node(when, id.addr)) == id
    ensures id.addr in f.heap && f.heap[id.addr] == Timer(when, repeat, micros, id.sequence)
    ensures forall m :: m in f.phase.batch ==> m.addr in u.heap && u.heap[m.addr].expire == m.expire
  {
    KeyedBatch(f, Batch(f));
  }

  /** The log of `f` has grown over that of `s` by exactly one `id`, among others. */
  ghost predicate RanOnce(s: State, f: State, id: TimerId) {
    && s.ran <= f.ran
    && exists k :: OnlyAt(s, f, id, k)
  }

  predicate OnlyAt(s: State, f: State, id: TimerId, k: nat) {
    && |s.ran| <= k < |f.ran| && f.ran[k] == id
    && forall j :: |s.ran| <= j < |f.ran| && j != k ==> f.ran[j] != id
  }

  lemma SortedDistinct(b: seq<Node>, i: nat, j: nat)
    requires Sorted(b) && i < |b| && j < |b| && i != j
    ensures b[i] != b[j]
  {
    if i < j {
      assert Less(b[i], b[j]);
    } else {
      assert Less(b[j], b[i]);
    }
  }

  lemma LoggedOnce(s: State, f: State, n: Node, id: TimerId)
    requires f.phase.Firing? && f.phase.done == |f.phase.batch| && n in f.phase.batch && Sorted(f.phase.batch)
    requires LogGrewBy(s, f, f.phase.batch[..f.phase.done]) && n.addr in s.heap && IdOf(s.heap, n) == id
    requires forall m :: m in f.phase.batch ==> m.addr in s.heap && s.heap[m.addr].expire == m.expire
    ensures RanOnce(s, f, id)
  {
    var b := f.phase.batch;
    assert b[..|b|] == b;
    var i :| 0 <= i < |b| && b[i] == n;
    var k := |s.ran| + i;
    assert f.ran[k] == id;
    hide Sorted;
    forall j | |s.ran| <= j < |f.ran| && j != k ensures f.ran[j] != id {
      var m := b[j - |s.ran|];
      SortedDistinct(b, i, j - |s.ran|);
      assert m in b && f.ran[j] == IdOf(s.heap, m);
    }
    assert OnlyAt(s, f, id, k);
  }

  /** The insertion ends the wait for the queue, and nothing else. */
  lemma QueuedByAdd(s: State, id: TimerId, when: int, repeat: bool, micros: nat, clock: int)
    requires Inv(s) && Waits(s, id, when, repeat, micros) && id.addr in s.inflight
    ensures var t := Step(s, AddTimerInLoop(id.addr, clock));
            Inv(t) && Waits(t, id, when, repeat, micros) && id.addr !in t.inflight && Node(when, id.addr) in t.timers
  {
    AddKeepsInv(s, id.addr, clock);
  }

  // ---------------------------------------------------------------- when the descriptor is set, and to what

  function Later(a: int, b: int): int {
    if a < b then b else a
  }

  /** The descriptor is set when a timer earlier than all others is added and at the end of a firing, and then
      for exactly that timer's time, but no closer than 100us; it runs out when it is read at its deadline or
      later; nothing else touches it. */
  lemma ArmedExactly(s: State, e: Event)
    requires Inv(s)
    ensures e.AddTimerInLoop? && e.addr in s.inflight ==>
      && e.addr in s.heap
      && Step(s, e).fd ==
           if forall n :: n in s.timers ==> s.heap[e.addr].expire < n.expire
           then Armed(Later(s.heap[e.addr].expire, e.clock + 100), e.clock) else s.fd
    ensures e.BeginFiring? && s.phase.Idle? && 0 < e.now ==>
      Step(s, e).fd == if s.fd.Armed? && s.fd.deadline <= e.readAt then Disarmed else s.fd
    ensures e.EndFiring? && s.phase.Firing? && s.phase.done == |s.phase.batch| ==>
      var t := Step(s, e);
      && (t.timers == {} || First(t.timers).expire == 0 ==> t.fd == s.fd)
      && (t.timers != {} && First(t.timers).expire != 0 ==>
           t.fd == Armed(Later(First(t.timers).expire, e.clock + 100), e.clock))
    ensures e.CreateTimer? || e.CancelTimer? || e.RunCallback? ==> Step(s, e).fd == s.fd
  {
    hide Inv, Core, Step;
    if e.AddTimerInLoop? {
      AddArms(s, e.addr, e.clock);
    } else if e.EndFiring? {
      EndArms(s, e.clock);
    } else {
      OthersDoNotArm(s, e);
    }
  }

  lemma EndArms(s: State, clock: int)
    requires Inv(s)
    ensures s.phase.Firing? && s.phase.done == |s.phase.batch| ==>
      var t := Step(s, EndFiring(clock));
      && (t.timers == {} || First(t.timers).expire == 0 ==> t.fd == s.fd)
      && (t.timers != {} && First(t.timers).expire != 0 ==>
           t.fd == Armed(Later(First(t.timers).expire, clock + 100), clock))
  {
    hide Inv, Core, Step, Sorted;
    if Enabled(s, EndFiring(clock)) {
      EndFiringStep(s, clock);
    }
  }

  lemma OthersDoNotArm(s: State, e: Event)
    requires Inv(s)
    ensures e.BeginFiring? && s.phase.Idle? && 0 < e.now ==>
      Step(s, e).fd == if s.fd.Armed? && s.fd.deadline <= e.readAt then Disarmed else s.fd
    ensures e.CreateTimer? || e.CancelTimer? || e.RunCallback? ==> Step(s, e).fd == s.fd
  {
    hide Core;
  }

  lemma AddArms(s: State, a: nat, clock: int)
    requires Inv(s)
    ensures a in s.inflight ==>
      && a in s.heap
      && Step(s, AddTimerInLoop(a, clock)).fd ==
           if forall n :: n in s.timers ==> s.heap[a].expire < n.expire
           then Armed(Later(s.heap[a].expire, clock + 100), clock) else s.fd
  {
    if s.timers != {} {
      var m := First(s.timers);
      assert forall n :: n in s.timers ==> m.expire <= n.expire;
    }
  }
}
