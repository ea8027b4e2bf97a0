/** The timer queue of net/TimerQueueff.cpp and net/Timerff.cpp.

    Timers are heap objects that the queue deletes by hand, so the model keeps an explicit heap:
    a map from addresses to live timers.  An address may be handed out again after a delete.
    The queue holds two indexes over the same timers: `timers`, ordered by (expiry, address), and
    `active`, the set of (address, sequence) pairs.  User callbacks run in the middle of a firing and
    may add and cancel timers, so a firing is a sequence of small steps rather than one. */
module TimerQueue {

  /** Every address the allocator can return is below the sentry used by `lower_bound`. */
  const UINTPTR_MAX: nat := 0xFFFF_FFFF_FFFF_FFFF

  /** A deadline handed to timerfd is never closer than this many microseconds. */
  const MIN_DELAY := 100

  /** `micros` is the interval after its truncation to microseconds. */
  datatype Timer = Timer(expire: int, repeat: bool, micros: nat, sequence: nat)

  /** Key of the ordered index. */
  datatype Node = Node(expire: int, addr: nat)

  /** Key of the second index, and what a caller of `addTimer` gets back. */
  datatype TimerId = TimerId(addr: nat, sequence: nat)

  /** The one-shot timerfd: when it will become readable, and when it was last set. */
  datatype TimerFd = Disarmed | Armed(deadline: int, setAt: int)

  /** `Firing`: the handler took `batch` at time `now`; `done` of them have started running.
      `mark` is the length of the run log when the firing began. */
  datatype Phase = Idle | Firing(batch: seq<Node>, done: nat, now: int, mark: nat)

  datatype State = State(
    heap: map<nat, Timer>,
    timers: set<Node>,
    active: set<TimerId>,
    canceling: set<TimerId>,
    calling: bool,
    created: nat,
    inflight: set<nat>,      // allocated by addTimer, not yet inserted by the loop thread
    phase: Phase,
    fd: TimerFd,
    ran: seq<TimerId>)       // every callback ever run, in order

  // ---------------------------------------------------------------- the order of `std::set`

  predicate Less(a: Node, b: Node) {
    a.expire < b.expire || (a.expire == b.expire && a.addr < b.addr)
  }

  predicate Sorted(ns: seq<Node>) {
    forall i, j :: 0 <= i < j < |ns| ==> Less(ns[i], ns[j])
  }

  /** `begin()`. */
  function First(ns: set<Node>): (m: Node)
    requires ns != {}
    ensures m in ns && forall y :: y in ns && y != m ==> Less(m, y)
  {
    FirstExists(ns);
    var m :| m in ns && forall y :: y in ns && y != m ==> Less(m, y);
    m
  }

  lemma {:induction false} FirstExists(ns: set<Node>)
    requires ns != {}
    ensures exists m :: m in ns && forall y :: y in ns && y != m ==> Less(m, y)
  {
    var x :| x in ns;
    var rest := ns - {x};
    assert ns == rest + {x};
    if rest == {} {
      assert forall y :: y in ns ==> y == x;
    } else {
      FirstExists(rest);
      var m :| m in rest && forall y :: y in rest && y != m ==> Less(m, y);
      var w := if Less(x, m) then x else m;
      assert forall y :: y in ns ==> y == x || y in rest;
      assert w in ns && forall y :: y in ns && y != w ==> Less(w, y);
    }
  }

  /** Copying `[begin, end)` of the set into a vector. */
  function InOrder(ns: set<Node>): (r: seq<Node>)
    ensures Sorted(r) && |r| == |ns|
    ensures forall y :: y in r <==> y in ns
  {
    if ns == {} then []
    else
      var m := First(ns);
      var t := InOrder(ns - {m});
      assert forall k :: 0 <= k < |t| ==> t[k] in t;
      [m] + t
  }

  /** The nodes before `lower_bound` of the sentry (now, UINTPTR_MAX). */
  function Expired(ns: set<Node>, now: int): set<Node> {
    set n | n in ns && Less(n, Node(now, UINTPTR_MAX))
  }

  // ---------------------------------------------------------------- the operations on values

  /** `howMuchTimeFromNow` and `timerfd_settime`. */
  function Arm(when: int, clock: int): TimerFd {
    Armed(clock + if when - clock < MIN_DELAY then MIN_DELAY else when - clock, clock)
  }

  function IdOf(heap: map<nat, Timer>, n: Node): TimerId
    requires n.addr in heap
  {
    TimerId(n.addr, heap[n.addr].sequence)
  }

  /** `new Timerff` on any thread: a fresh address and the next sequence number.  `addTimer` reads the number
      again later, when it returns. */
  function Create(s: State, a: nat, when: int, repeat: bool, micros: nat): State {
    s.(heap := s.heap[a := Timer(when, repeat, micros, s.created + 1)],
       created := s.created + 1,
       inflight := s.inflight + {a})
  }

  predicate EarliestChanged(ns: set<Node>, when: int) {
    ns == {} || when < First(ns).expire
  }

  /** `insertTimer`: both indexes gain the timer. */
  function Insert(s: State, a: nat): State
    requires a in s.heap
  {
    s.(timers := s.timers + {Node(s.heap[a].expire, a)},
       active := s.active + {TimerId(a, s.heap[a].sequence)})
  }

  /** `addTimerInLoop`. */
  function AddInLoop(s: State, a: nat, clock: int): State
    requires a in s.heap
  {
    var r := Insert(s, a).(inflight := s.inflight - {a});
    if EarliestChanged(s.timers, s.heap[a].expire) then r.(fd := Arm(s.heap[a].expire, clock)) else r
  }

  /** `cancelInLoop`: delete a queued timer, or remember the id while callbacks are running. */
  function Cancel(s: State, id: TimerId): State
    requires id in s.active ==> id.addr in s.heap
  {
    if id in s.active then
      s.(timers := s.timers - {Node(s.heap[id.addr].expire, id.addr)},
         heap := s.heap - {id.addr},
         active := s.active - {id})
    else if s.calling then
      s.(canceling := s.canceling + {id})
    else s
  }

  /** The first half of `handleTimerfdRead`: read the descriptor at time `readAt`, take the expired timers
      out of both indexes and start calling them. */
  function FireBegin(s: State, now: int, readAt: int): State
    requires forall n :: n in s.timers ==> n.addr in s.heap
  {
    var expired := Expired(s.timers, now);
    s.(timers := s.timers - expired,
       active := s.active - (set n | n in expired :: IdOf(s.heap, n)),
       canceling := {},
       calling := true,
       phase := Firing(InOrder(expired), 0, now, |s.ran|),
       fd := if s.fd.Armed? && s.fd.deadline <= readAt then Disarmed else s.fd)
  }

  /** One turn of the loop that runs the expired timers. */
  function RunNext(s: State): State
    requires s.phase.Firing? && s.phase.done < |s.phase.batch|
    requires s.phase.batch[s.phase.done].addr in s.heap
  {
    s.(ran := s.ran + [IdOf(s.heap, s.phase.batch[s.phase.done])],
       phase := s.phase.(done := s.phase.done + 1))
  }

  /** One turn of the loop in `reset`: restart the timer or delete it. */
  function ResetOne(s: State, n: Node, now: int): State
    requires n.addr in s.heap
  {
    if s.heap[n.addr].repeat && IdOf(s.heap, n) !in s.canceling then
      Insert(s.(heap := s.heap[n.addr := s.heap[n.addr].(expire := now + s.heap[n.addr].micros)]), n.addr)
    else
      s.(heap := s.heap - {n.addr})
  }

  /** The end of `reset`: arm the descriptor for the earliest timer, unless its expiry is the invalid time 0. */
  function Rearm(s: State, clock: int): State {
    if s.timers != {} && First(s.timers).expire != 0
    then s.(fd := Arm(First(s.timers).expire, clock)) else s
  }

  // ---------------------------------------------------------------- the invariant

  /** The timer at `a` is in `ns`, the ordered index or the batch. */
  predicate Holds(s: State, ns: set<Node>, a: nat) {
    a in s.heap && Node(s.heap[a].expire, a) in ns
  }

  predicate Live(s: State, id: TimerId) {
    id.addr in s.heap && s.heap[id.addr].sequence == id.sequence
  }

  /** Each key is its timer's expiry. */
  predicate Keyed(s: State, ns: set<Node>) {
    forall n :: n in ns ==> n.addr in s.heap && s.heap[n.addr].expire == n.expire
  }

  /** The second index is the (address, sequence) image of the first. */
  ghost predicate IndexesAgree(s: State) {
    forall id :: id in s.active <==> Live(s, id) && Holds(s, s.timers, id.addr)
  }

  /** Every live timer has exactly one owner: the index, the batch, or a thread still adding it. */
  ghost predicate OneOwner(s: State, b: set<Node>) {
    && s.inflight <= s.heap.Keys
    && (forall a :: a in s.heap ==> Holds(s, s.timers, a) || Holds(s, b, a) || a in s.inflight)
    && (forall a :: Holds(s, s.timers, a) ==> !Holds(s, b, a) && a !in s.inflight)
    && (forall a :: Holds(s, b, a) ==> a !in s.inflight)
  }

  predicate UniqueSequences(s: State) {
    && (forall a :: a in s.heap ==> a < UINTPTR_MAX && 0 < s.heap[a].sequence <= s.created)
    && (forall a, c :: a in s.heap && c in s.heap && a != c ==> s.heap[a].sequence != s.heap[c].sequence)
  }

  /** What every step keeps.  `b` is the part of the expired batch the handler still owns. */
  ghost predicate Core(s: State, b: set<Node>) {
    Keyed(s, s.timers) && Keyed(s, b) && IndexesAgree(s) && OneOwner(s, b) && UniqueSequences(s)
  }

  function Elems(ns: seq<Node>): set<Node> {
    set n | n in ns
  }

  function Batch(s: State): seq<Node> {
    if s.phase.Firing? then s.phase.batch else []
  }

  /** The log of a firing holds the ids of the timers run so far, in order. */
  predicate RanBatch(s: State) {
    s.phase.Firing? ==>
      && s.phase.done <= |s.phase.batch|
      && |s.ran| == s.phase.mark + s.phase.done
      && forall k :: 0 <= k < s.phase.done ==>
        s.phase.batch[k].addr in s.heap && s.ran[s.phase.mark + k] == IdOf(s.heap, s.phase.batch[k])
  }

  ghost predicate Inv(s: State) {
    && Core(s, Elems(Batch(s)))
    && Sorted(Batch(s))
    && (s.calling <==> s.phase.Firing?)
    && (s.phase.Firing? ==> 0 < s.phase.now)
    && RanBatch(s)
  }

  function Init(): State {
    State(map[], {}, {}, {}, false, 0, {}, Idle, Disarmed, [])
  }

  // ---------------------------------------------------------------- each operation keeps the core

  lemma CreateKeepsCore(s: State, a: nat, when: int, repeat: bool, micros: nat, b: set<Node>)
    requires Core(s, b) && a !in s.heap && a < UINTPTR_MAX
    ensures Core(Create(s, a, when, repeat, micros), b)
  {
    var r := Create(s, a, when, repeat, micros);
    assert forall n :: n in s.timers || n in b ==> n.addr != a;
    assert forall c :: Holds(r, s.timers, c) <==> Holds(s, s.timers, c);
    assert forall c :: Holds(r, b, c) <==> Holds(s, b, c);
  }

  /** A fired timer leaves the batch: it is owned by nobody but the handler, like a timer just allocated. */
  function TakeFromBatch(s: State, a: nat, expire: int): State
    requires a in s.heap
  {
    s.(heap := s.heap[a := s.heap[a].(expire := expire)], inflight := s.inflight + {a})
  }

  lemma TakeFromBatchKeepsCore(s: State, b: set<Node>, n: Node, expire: int)
    requires Core(s, b) && n in b
    ensures Core(TakeFromBatch(s, n.addr, expire), b - {n})
  {
    var r := TakeFromBatch(s, n.addr, expire);
    assert Holds(s, b, n.addr);
    assert forall m :: m in s.timers || (m in b && m != n) ==> m.addr != n.addr;
    assert forall c :: c != n.addr ==>
      (Holds(r, s.timers, c) <==> Holds(s, s.timers, c)) && (Holds(r, b - {n}, c) <==> Holds(s, b, c));
  }

  lemma InsertKeepsCore(s: State, a: nat, b: set<Node>)
    requires Core(s, b) && a in s.inflight
    ensures Core(Insert(s, a).(inflight := s.inflight - {a}), b)
  {
    var r := Insert(s, a).(inflight := s.inflight - {a});
    assert Node(s.heap[a].expire, a) !in b by { assert !Holds(s, b, a); }
    assert forall c :: c != a ==> (Holds(r, r.timers, c) <==> Holds(s, s.timers, c));
    assert forall c :: Holds(r, b, c) <==> Holds(s, b, c);
  }

  lemma FreeKeepsCore(s: State, a: nat, b: set<Node>)
    requires Core(s, b) && a in s.inflight
    ensures Core(s.(heap := s.heap - {a}, inflight := s.inflight - {a}), b)
  {
    var r := s.(heap := s.heap - {a}, inflight := s.inflight - {a});
    assert forall m :: m in s.timers ==> Holds(s, s.timers, m.addr);
    assert forall m :: m in b ==> Holds(s, b, m.addr);
    assert forall c :: c != a ==>
      (Holds(r, s.timers, c) <==> Holds(s, s.timers, c)) && (Holds(r, b, c) <==> Holds(s, b, c));
  }

  lemma RestartIsTakeThenInsert(s: State, n: Node, now: int)
    requires n.addr in s.heap && n.addr !in s.inflight
    requires s.heap[n.addr].repeat && IdOf(s.heap, n) !in s.canceling
    ensures var t := TakeFromBatch(s, n.addr, now + s.heap[n.addr].micros);
            ResetOne(s, n, now) == Insert(t, n.addr).(inflight := t.inflight - {n.addr})
  {
    assert s.inflight + {n.addr} - {n.addr} == s.inflight;
  }

  lemma BatchIsHeld(s: State, b: set<Node>, n: Node)
    requires Core(s, b) && n in b
    ensures n.addr in s.heap && n.addr !in s.inflight
  {
    assert Holds(s, b, n.addr);
  }

  lemma RestartKeepsCore(s: State, b: set<Node>, n: Node, now: int)
    requires Core(s, b) && n in b
    requires n.addr in s.heap && s.heap[n.addr].repeat && IdOf(s.heap, n) !in s.canceling
    ensures Core(ResetOne(s, n, now), b - {n})
  {
    hide Core, IdOf, ResetOne, Insert;
    BatchIsHeld(s, b, n);
    RestartIsTakeThenInsert(s, n, now);
    TakeFromBatchKeepsCore(s, b, n, now + s.heap[n.addr].micros);
    InsertKeepsCore(TakeFromBatch(s, n.addr, now + s.heap[n.addr].micros), n.addr, b - {n});
  }

  lemma DropKeepsCore(s: State, b: set<Node>, n: Node)
    requires Core(s, b) && n in b
    ensures Core(s.(heap := s.heap - {n.addr}), b - {n})
  {
    var t := TakeFromBatch(s, n.addr, 0);
    assert Holds(s, b, n.addr);
    TakeFromBatchKeepsCore(s, b, n, 0);
    assert t.inflight - {n.addr} == s.inflight && t.heap - {n.addr} == s.heap - {n.addr};
    FreeKeepsCore(t, n.addr, b - {n});
    assert s.(heap := s.heap - {n.addr}) == t.(heap := t.heap - {n.addr}, inflight := t.inflight - {n.addr});
  }

  lemma CancelKeepsCore(s: State, id: TimerId, b: set<Node>)
    requires Core(s, b)
    ensures Core(Cancel(s, id), b)
  {
    var r := Cancel(s, id);
    if id in s.active {
      var n := Node(s.heap[id.addr].expire, id.addr);
      assert Holds(s, s.timers, id.addr) && Live(s, id);
      assert forall m :: m in b ==> Holds(s, b, m.addr);
      assert forall c :: c != id.addr ==>
        (Holds(r, r.timers, c) <==> Holds(s, s.timers, c)) && (Holds(r, b, c) <==> Holds(s, b, c));
    } else {
      assert forall c, ns :: Holds(r, ns, c) <==> Holds(s, ns, c);
    }
  }

  lemma FireBeginKeepsCore(s: State, now: int, readAt: int)
    requires Core(s, {})
    ensures Core(FireBegin(s, now, readAt), Expired(s.timers, now))
  {
    var b := Expired(s.timers, now);
    var r := FireBegin(s, now, readAt);
    var gone := set n | n in b :: IdOf(s.heap, n);
    assert forall c :: Holds(s, s.timers, c) <==> Holds(r, r.timers, c) || Holds(r, b, c);
    assert forall id :: id in gone <==> Live(s, id) && Holds(s, b, id.addr) by {
      forall id | Live(s, id) && Holds(s, b, id.addr) ensures id in gone {
        var n := Node(s.heap[id.addr].expire, id.addr);
        assert n in b && IdOf(s.heap, n) == id;
      }
    }
  }

  /** Running a callback touches neither index nor the heap. */
  lemma CoreDependsOnIndexesOnly(s: State, r: State, b: set<Node>)
    requires Core(s, b) && r.heap == s.heap && r.timers == s.timers && r.active == s.active
    requires r.inflight == s.inflight && r.created == s.created
    ensures Core(r, b)
  {
    assert forall c, ns :: Holds(r, ns, c) <==> Holds(s, ns, c);
  }

  // ---------------------------------------------------------------- the whole of `reset`

  ghost function ResetAll(s: State, b: seq<Node>, now: int): (r: State)
    requires Core(s, Elems(b)) && Sorted(b)
    ensures Core(r, {})
    ensures r.fd == s.fd && r.ran == s.ran && r.created == s.created && r.inflight == s.inflight
    ensures r.canceling == s.canceling && r.calling == s.calling && r.phase == s.phase
    decreases |b|
  {
    if b == [] then s
    else
      ResetStep(s, b, now);
      ResetAll(ResetOne(s, b[0], now), b[1..], now)
  }

  lemma ResetStep(s: State, b: seq<Node>, now: int)
    requires Core(s, Elems(b)) && Sorted(b) && b != []
    ensures b[0].addr in s.heap
    ensures Core(ResetOne(s, b[0], now), Elems(b[1..])) && Sorted(b[1..])
  {
    assert b[0] in Elems(b);
    assert Elems(b) - {b[0]} == Elems(b[1..]) by { assert b == [b[0]] + b[1..]; }
    if s.heap[b[0].addr].repeat && IdOf(s.heap, b[0]) !in s.canceling {
      RestartKeepsCore(s, Elems(b), b[0], now);
    } else {
      DropKeepsCore(s, Elems(b), b[0]);
    }
  }

  function EndCalling(s: State): State {
    s.(calling := false, phase := Idle)
  }

  /** `callingExpiredTimers_=false` followed by `reset`. */
  ghost function FireEnd(s: State, clock: int): State
    requires Inv(s) && s.phase.Firing?
  {
    CoreDependsOnIndexesOnly(s, EndCalling(s), Elems(s.phase.batch));
    Rearm(ResetAll(EndCalling(s), s.phase.batch, s.phase.now), clock)
  }

  // ---------------------------------------------------------------- small steps and runs

  datatype Event =
    | CreateTimer(addr: nat, when: int, repeat: bool, micros: nat)
    | AddTimerInLoop(addr: nat, clock: int)
    | CancelTimer(id: TimerId)
    | BeginFiring(now: int, readAt: int)
    | RunCallback
    | EndFiring(clock: int)

  /** When a step can happen.  An allocation returns any address not in use; the clock is past the epoch. */
  predicate Enabled(s: State, e: Event) {
    match e
    case CreateTimer(a, _, _, _) => a !in s.heap && a < UINTPTR_MAX
    case AddTimerInLoop(a, _) => a in s.inflight
    case CancelTimer(_) => true
    case BeginFiring(now, _) => s.phase.Idle? && 0 < now
    case RunCallback => s.phase.Firing? && s.phase.done < |s.phase.batch|
    case EndFiring(_) => s.phase.Firing? && s.phase.done == |s.phase.batch|
  }

  /** A step that is not enabled does nothing. */
  ghost function Step(s: State, e: Event): State
    requires Inv(s)
  {
    if !Enabled(s, e) then s else
    match e
    case CreateTimer(a, when, repeat, micros) => Create(s, a, when, repeat, micros)
    case AddTimerInLoop(a, clock) => AddInLoop(s, a, clock)
    case CancelTimer(id) => Cancel(s, id)
    case BeginFiring(now, readAt) => FireBegin(s, now, readAt)
    case RunCallback => assert s.phase.batch[s.phase.done] in Elems(Batch(s)); RunNext(s)
    case EndFiring(clock) => FireEnd(s, clock)
  }

  /** The batch keeps its ids while callbacks add and cancel other timers. */
  lemma BatchIdsStable(s: State, r: State)
    requires Inv(s) && r.phase == s.phase && r.ran == s.ran && r.calling == s.calling
    requires Core(r, Elems(Batch(s)))
    requires forall n :: n in Batch(s) ==> n.addr in s.heap && n.addr in r.heap && r.heap[n.addr] == s.heap[n.addr]
    ensures Inv(r)
  {
  }

  lemma CreateKeepsInv(s: State, a: nat, when: int, repeat: bool, micros: nat)
    requires Inv(s) && a !in s.heap && a < UINTPTR_MAX
    ensures Inv(Create(s, a, when, repeat, micros))
  {
    CreateKeepsCore(s, a, when, repeat, micros, Elems(Batch(s)));
    assert forall n :: n in Batch(s) ==> n in Elems(Batch(s));
    BatchIdsStable(s, Create(s, a, when, repeat, micros));
  }

  lemma AddKeepsInv(s: State, a: nat, clock: int)
    requires Inv(s) && a in s.inflight
    ensures Inv(AddInLoop(s, a, clock))
  {
    InsertKeepsCore(s, a, Elems(Batch(s)));
    CoreDependsOnIndexesOnly(Insert(s, a).(inflight := s.inflight - {a}), AddInLoop(s, a, clock), Elems(Batch(s)));
    assert forall n :: n in Batch(s) ==> n in Elems(Batch(s));
    BatchIdsStable(s, AddInLoop(s, a, clock));
  }

  lemma CancelKeepsInv(s: State, id: TimerId)
    requires Inv(s)
    ensures Inv(Cancel(s, id))
  {
    CancelKeepsCore(s, id, Elems(Batch(s)));
    CancelSparesBatch(s, id);
    BatchIdsStable(s, Cancel(s, id));
  }

  lemma FireBeginKeepsInv(s: State, now: int, readAt: int)
    requires Inv(s) && s.phase.Idle? && 0 < now
    ensures Inv(FireBegin(s, now, readAt))
  {
    assert Elems(Batch(s)) == {};
    FireBeginKeepsCore(s, now, readAt);
    assert Elems(InOrder(Expired(s.timers, now))) == Expired(s.timers, now);
  }

  lemma RunNextKeepsInv(s: State)
    requires Inv(s) && s.phase.Firing? && s.phase.done < |s.phase.batch|
    ensures s.phase.batch[s.phase.done] in Elems(Batch(s))
    ensures Inv(RunNext(s))
  {
    assert s.phase.batch[s.phase.done] in Elems(Batch(s));
    CoreDependsOnIndexesOnly(s, RunNext(s), Elems(Batch(s)));
    RanGrows(s);
    hide Core, Sorted;
  }

  lemma RanGrows(s: State)
    requires RanBatch(s) && s.phase.Firing? && s.phase.done < |s.phase.batch|
    requires s.phase.batch[s.phase.done].addr in s.heap
    ensures RanBatch(RunNext(s))
  {
  }

  lemma FireEndKeepsInv(s: State, clock: int)
    requires Inv(s) && s.phase.Firing?
    ensures Inv(FireEnd(s, clock))
  {
    CoreDependsOnIndexesOnly(s, EndCalling(s), Elems(s.phase.batch));
    CoreDependsOnIndexesOnly(ResetAll(EndCalling(s), s.phase.batch, s.phase.now), FireEnd(s, clock), {});
    assert Elems([]) == {};
  }

  /** Every step of every run keeps the invariant.  The operations dereference timers only under this invariant,
      so no step touches a deleted timer, deletes one twice, or loses one.  The read of the sequence that
      `addTimer` makes for its caller after handing the timer over is no step; see module TimerAdding. */
  lemma StepKeepsInv(s: State, e: Event)
    requires Inv(s)
    ensures Inv(Step(s, e))
  {
    if Enabled(s, e) {
      match e
      case CreateTimer(a, when, repeat, micros) => CreateKeepsInv(s, a, when, repeat, micros);
      case AddTimerInLoop(a, clock) => AddKeepsInv(s, a, clock);
      case CancelTimer(id) => CancelKeepsInv(s, id);
      case BeginFiring(now, readAt) => FireBeginKeepsInv(s, now, readAt);
      case RunCallback => RunNextKeepsInv(s);
      case EndFiring(clock) => FireEndKeepsInv(s, clock);
    }
  }

  lemma CancelSparesBatch(s: State, id: TimerId)
    requires Inv(s)
    ensures forall n :: n in Batch(s) ==>
      n.addr in s.heap && n.addr in Cancel(s, id).heap && Cancel(s, id).heap[n.addr] == s.heap[n.addr]
  {
    forall n | n in Batch(s)
      ensures n.addr in s.heap && n.addr in Cancel(s, id).heap && Cancel(s, id).heap[n.addr] == s.heap[n.addr]
    {
      assert n in Elems(Batch(s));
      assert Holds(s, Elems(Batch(s)), n.addr);
    }
  }

  ghost function Run(s: State, es: seq<Event>): (r: State)
    requires Inv(s)
    ensures Inv(r)
    decreases |es|
  {
    if es == [] then s else
      StepKeepsInv(s, es[0]);
      Run(Step(s, es[0]), es[1..])
  }

  lemma RunCons(s: State, e: Event, es: seq<Event>)
    requires Inv(s)
    ensures Inv(Step(s, e)) && Run(s, [e] + es) == Run(Step(s, e), es)
  {
    StepKeepsInv(s, e);
    assert ([e] + es)[1..] == es;
  }

  lemma RunSnoc(s: State, es: seq<Event>, e: Event)
    requires Inv(s)
    ensures Run(s, es + [e]) == Step(Run(s, es), e)
  {
    RunAppend(s, es, [e]);
    RunCons(Run(s, es), e, []);
    assert [e] + [] == [e];
  }

  /** A run can be cut anywhere. */
  lemma {:induction false} RunAppend(s: State, xs: seq<Event>, ys: seq<Event>)
    requires Inv(s)
    ensures Run(s, xs + ys) == Run(Run(s, xs), ys)
    decreases |xs|
  {
    if xs == [] {
      assert xs + ys == ys;
    } else {
      StepKeepsInv(s, xs[0]);
      assert (xs + ys)[1..] == xs[1..] + ys;
      RunAppend(Step(s, xs[0]), xs[1..], ys);
    }
  }
}
