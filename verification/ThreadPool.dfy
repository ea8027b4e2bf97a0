/** The bounded thread pool of base/thread/ThreadPoolff.cpp: a monitor with two condition variables, each
    signalled one waiter at a time.

    Every critical section is one step.  A thread inside the monitor's methods but not holding the mutex is
    either waiting unsignalled on a condition variable, or ready: on its way to the mutex, because it has just
    called, or has been signalled, or woke spuriously. */
module ThreadPool {

  datatype State = State(
    queue: seq<nat>,
    maxQueueSize: nat,           // 0: unbounded
    running: bool,
    starting: set<nat>,          // workers created, before their first test of `while(running_)`
    ready: set<nat>,             // workers on their way to `take`
    waiting: set<nat>,           // workers waiting unsignalled on notEmpty_
    executing: set<nat>,         // workers running a task
    exited: set<nat>,
    callers: set<nat>,           // threads in `run`, on their way to the mutex
    blocked: set<nat>,           // threads in `run`, waiting unsignalled on notFull_
    submitted: seq<nat>,         // every task ever put in the queue
    taken: seq<nat>)             // every task ever taken from it

  datatype Event =
    | Call(thread: nat)                             // a thread calls `run`
    | Offer(thread: nat, task: nat, wakee: nat)     // ... and holds the mutex
    | Take(worker: nat, wakee: nat)                 // a worker holds the mutex in `take`
    | Begin(worker: nat, seesRunning: bool)         // a new worker tests `while(running_)`, without the mutex
    | Finish(worker: nat, seesRunning: bool)        // a task returns and the test is made again
    | Spurious(thread: nat)                         // `pthread_cond_wait` returns for no reason
    | Stop

  predicate IsFull(s: State) {
    s.maxQueueSize > 0 && |s.queue| >= s.maxQueueSize
  }

  /** A signal wakes one of the waiters, whichever it likes, if there is one. */
  predicate Enabled(s: State, e: Event) {
    match e
    case Call(t) => t !in s.callers && t !in s.blocked
    case Offer(t, _, w) => t in s.callers && (s.waiting != {} ==> w in s.waiting)
    case Take(w, p) => w in s.ready && (s.blocked != {} ==> p in s.blocked)
    case Begin(w, sees) => w in s.starting && (s.running ==> sees)
    case Finish(w, sees) => w in s.executing && (s.running ==> sees)
    case Spurious(t) => t in s.waiting || t in s.blocked
    case Stop => true
  }

  /** `notEmpty_.notify()`. */
  function SignalWorker(s: State, w: nat): State {
    if s.waiting == {} then s else s.(waiting := s.waiting - {w}, ready := s.ready + {w})
  }

  /** `notFull_.notify()`. */
  function SignalCaller(s: State, p: nat): State {
    if s.blocked == {} then s else s.(blocked := s.blocked - {p}, callers := s.callers + {p})
  }

  /** `run`, from taking the mutex to releasing it. */
  function OfferTask(s: State, t: nat, task: nat, wakee: nat): State {
    var u := s.(callers := s.callers - {t});
    if IsFull(s) && s.running then u.(blocked := s.blocked + {t})
    else if !s.running then u
    else SignalWorker(u.(queue := s.queue + [task], submitted := s.submitted + [task]), wakee)
  }

  /** `take`, from taking the mutex to releasing it.  With nothing to do and the pool stopped it returns no
      task, and the worker leaves. */
  function TakeTask(s: State, w: nat, wakee: nat): State {
    var u := s.(ready := s.ready - {w});
    if s.queue == [] && s.running then u.(waiting := s.waiting + {w})
    else if s.queue != [] then
      var v := u.(queue := s.queue[1..], taken := s.taken + [s.queue[0]], executing := s.executing + {w});
      if s.maxQueueSize > 0 then SignalCaller(v, wakee) else v
    else u.(exited := s.exited + {w})
  }

  function BeginWork(s: State, w: nat, seesRunning: bool): State {
    var u := s.(starting := s.starting - {w});
    if seesRunning then u.(ready := s.ready + {w}) else u.(exited := s.exited + {w})
  }

  function FinishTask(s: State, w: nat, seesRunning: bool): State {
    var u := s.(executing := s.executing - {w});
    if seesRunning then u.(ready := s.ready + {w}) else u.(exited := s.exited + {w})
  }

  function StopPool(s: State): State {
    s.(running := false, ready := s.ready + s.waiting, waiting := {}, callers := s.callers + s.blocked, blocked := {})
  }

  /** A step that is not enabled does nothing. */
  function Step(s: State, e: Event): State {
    if !Enabled(s, e) then s else
    match e
    case Call(t) => s.(callers := s.callers + {t})
    case Offer(t, task, w) => OfferTask(s, t, task, w)
    case Take(w, p) => TakeTask(s, w, p)
    case Begin(w, sees) => BeginWork(s, w, sees)
    case Finish(w, sees) => FinishTask(s, w, sees)
    case Spurious(t) =>
      if t in s.waiting then s.(waiting := s.waiting - {t}, ready := s.ready + {t})
      else s.(blocked := s.blocked - {t}, callers := s.callers + {t})
    case Stop => StopPool(s)
  }

  function Run(s: State, es: seq<Event>): State
    decreases |es|
  {
    if es == [] then s else Run(Step(s, es[0]), es[1..])
  }

  /** `start` with the given workers. */
  function Init(workers: set<nat>, maxQueueSize: nat): State {
    State([], maxQueueSize, true, workers, {}, {}, {}, {}, {}, {}, [], [])
  }

  // ---------------------------------------------------------------- the monitor invariant

  predicate Apart(s: State) {
    && (forall x :: x in s.starting ==> x !in s.ready && x !in s.waiting && x !in s.executing && x !in s.exited)
    && (forall x :: x in s.ready ==> x !in s.waiting && x !in s.executing && x !in s.exited)
    && (forall x :: x in s.waiting ==> x !in s.executing && x !in s.exited)
    && (forall x :: x in s.executing ==> x !in s.exited)
    && (forall x :: x in s.callers ==> x !in s.blocked)
  }

  /** No signal is lost: a waiting worker is owed nothing as long as enough others are coming for the queue. */
  predicate WorkCovered(s: State) {
    s.waiting != {} ==> |s.queue| <= |s.ready|
  }

  /** The same for free slots and blocked callers. */
  predicate SpaceCovered(s: State) {
    s.blocked != {} ==> s.maxQueueSize > 0 && s.maxQueueSize - |s.queue| <= |s.callers|
  }

  predicate Inv(s: State) {
    && Apart(s) && WorkCovered(s) && SpaceCovered(s)
    && (s.maxQueueSize > 0 ==> |s.queue| <= s.maxQueueSize)
    && (!s.running ==> s.waiting == {} && s.blocked == {})
    && s.taken + s.queue == s.submitted
  }

  lemma OfferKeepsInv(s: State, t: nat, task: nat, wakee: nat)
    requires Inv(s) && Enabled(s, Offer(t, task, wakee))
    ensures Inv(OfferTask(s, t, task, wakee))
  {
    assert |s.callers - {t}| == |s.callers| - 1;
    if s.running && !IsFull(s) {
      assert s.taken + (s.queue + [task]) == s.taken + s.queue + [task];
      if s.waiting != {} {
        assert |s.ready + {wakee}| == |s.ready| + 1;
      }
    }
  }

  /** Taking a task, before any signal: one worker and one task fewer, one slot more. */
  function PopTask(s: State, w: nat): State
    requires s.queue != []
  {
    s.(ready := s.ready - {w}, queue := s.queue[1..], taken := s.taken + [s.queue[0]], executing := s.executing + {w})
  }

  lemma PopKeepsInv(s: State, w: nat, wakee: nat)
    requires Inv(s) && Enabled(s, Take(w, wakee)) && s.queue != []
    ensures Inv(TakeTask(s, w, wakee))
  {
    var v := PopTask(s, w);
    assert |s.ready - {w}| == |s.ready| - 1;
    assert v.taken + v.queue == s.taken + s.queue;
    if s.maxQueueSize > 0 {
      SignalKeepsInv(v, wakee);
    }
  }

  /** A signal after one slot has become free. */
  lemma SignalKeepsInv(v: State, p: nat)
    requires Apart(v) && WorkCovered(v) && v.taken + v.queue == v.submitted && |v.queue| < v.maxQueueSize
    requires !v.running ==> v.waiting == {} && v.blocked == {}
    requires v.blocked != {} ==> p in v.blocked && v.maxQueueSize - |v.queue| <= |v.callers| + 1
    ensures Inv(SignalCaller(v, p))
  {
    if v.blocked != {} {
      assert |v.callers + {p}| == |v.callers| + 1;
    }
  }

  lemma LeaveKeepsInv(s: State, w: nat, wakee: nat)
    requires Inv(s) && w in s.ready && s.queue == []
    ensures Inv(TakeTask(s, w, wakee))
  {
    assert |s.ready - {w}| == |s.ready| - 1;
  }

  lemma TakeKeepsInv(s: State, w: nat, wakee: nat)
    requires Inv(s) && Enabled(s, Take(w, wakee))
    ensures Inv(TakeTask(s, w, wakee))
  {
    hide Inv, TakeTask;
    if s.queue != [] {
      PopKeepsInv(s, w, wakee);
    } else {
      LeaveKeepsInv(s, w, wakee);
    }
  }

  lemma ArrivalKeepsInv(s: State, t: nat)
    requires Inv(s)
    ensures t !in s.callers && t !in s.blocked ==> Inv(s.(callers := s.callers + {t}))
    ensures t in s.waiting ==> Inv(s.(waiting := s.waiting - {t}, ready := s.ready + {t}))
    ensures t in s.blocked ==> Inv(s.(blocked := s.blocked - {t}, callers := s.callers + {t}))
  {
    if t !in s.ready {
      assert |s.ready + {t}| == |s.ready| + 1;
    }
    if t !in s.callers {
      assert |s.callers + {t}| == |s.callers| + 1;
    }
  }

  lemma FinishKeepsInv(s: State, w: nat, seesRunning: bool)
    requires Inv(s) && w in s.executing
    ensures Inv(FinishTask(s, w, seesRunning))
  {
    if seesRunning {
      assert |s.ready + {w}| == |s.ready| + 1;
    }
  }

  lemma BeginKeepsInv(s: State, w: nat, seesRunning: bool)
    requires Inv(s) && w in s.starting
    ensures Inv(BeginWork(s, w, seesRunning))
  {
    if seesRunning {
      assert |s.ready + {w}| == |s.ready| + 1;
    }
  }

  lemma StepKeepsInv(s: State, e: Event)
    requires Inv(s)
    ensures Inv(Step(s, e))
  {
    hide OfferTask, TakeTask, BeginWork, FinishTask;
    if Enabled(s, e) {
      match e
      case Call(t) => ArrivalKeepsInv(s, t);
      case Offer(t, task, w) => OfferKeepsInv(s, t, task, w);
      case Take(w, p) => TakeKeepsInv(s, w, p);
      case Begin(w, sees) => BeginKeepsInv(s, w, sees);
      case Finish(w, sees) => FinishKeepsInv(s, w, sees);
      case Spurious(t) => ArrivalKeepsInv(s, t);
      case Stop => StopKeepsInv(s);
    }
  }

  lemma StopKeepsInv(s: State)
    requires Inv(s)
    ensures Inv(StopPool(s))
  {
  }

  lemma {:induction false} RunKeepsInv(s: State, es: seq<Event>)
    requires Inv(s)
    ensures Inv(Run(s, es))
    decreases |es|
  {
    if es != [] {
      StepKeepsInv(s, es[0]);
      RunKeepsInv(Step(s, es[0]), es[1..]);
    }
  }

  // ---------------------------------------------------------------- what every run promises

  /** In every interleaving, whichever waiter a signal wakes: while a worker waits unsignalled there are no
      more queued tasks than workers on their way to them; while a caller waits unsignalled there are no more
      free slots than callers on their way; the queue never exceeds its bound. */
  lemma NoLostSignal(workers: set<nat>, maxQueueSize: nat, es: seq<Event>)
    ensures var s := Run(Init(workers, maxQueueSize), es);
            && (s.waiting != {} ==> |s.queue| <= |s.ready|)
            && (s.blocked != {} ==> s.maxQueueSize > 0 && s.maxQueueSize - |s.queue| <= |s.callers|)
            && (s.maxQueueSize > 0 ==> |s.queue| <= s.maxQueueSize)
  {
    RunKeepsInv(Init(workers, maxQueueSize), es);
  }

  /** Hence queued work and a waiting worker mean that some worker can take the head of the queue now; and if
      nobody is on his way, nobody waits: every worker is executing or gone. */
  lemma QueuedWorkIsPickedUp(workers: set<nat>, maxQueueSize: nat, es: seq<Event>)
    ensures var s := Run(Init(workers, maxQueueSize), es);
            && (s.queue != [] && s.waiting != {} ==> exists w :: w in s.ready)
            && (s.queue != [] && s.ready == {} ==> s.waiting == {})
  {
    RunKeepsInv(Init(workers, maxQueueSize), es);
    var s := Run(Init(workers, maxQueueSize), es);
    if s.queue != [] && s.waiting != {} {
      assert |s.ready| > 0;
      assert s.ready != {};
    }
  }

  function Workers(s: State): set<nat> {
    s.starting + s.ready + s.waiting + s.executing + s.exited
  }

  /** What never changes, and what only grows. */
  predicate Onward(s: State, t: State) {
    && Workers(t) == Workers(s) && t.maxQueueSize == s.maxQueueSize && (t.running ==> s.running)
    && s.submitted <= t.submitted && s.taken <= t.taken
  }

  lemma OfferOnward(s: State, t: nat, task: nat, wakee: nat)
    requires Enabled(s, Offer(t, task, wakee))
    ensures Onward(s, OfferTask(s, t, task, wakee))
  {
  }

  lemma TakeOnward(s: State, w: nat, wakee: nat)
    requires Enabled(s, Take(w, wakee))
    ensures Onward(s, TakeTask(s, w, wakee))
  {
    assert s.ready - {w} + {w} == s.ready;
  }

  lemma FinishOnward(s: State, w: nat, seesRunning: bool)
    requires w in s.executing
    ensures Onward(s, FinishTask(s, w, seesRunning))
  {
    assert s.executing - {w} + {w} == s.executing;
  }

  lemma BeginOnward(s: State, w: nat, seesRunning: bool)
    requires w in s.starting
    ensures Onward(s, BeginWork(s, w, seesRunning))
  {
    assert s.starting - {w} + {w} == s.starting;
  }

  lemma StepOnward(s: State, e: Event)
    ensures Onward(s, Step(s, e))
  {
    hide OfferTask, TakeTask, BeginWork, FinishTask;
    if Enabled(s, e) {
      match e
      case Call(_) =>
      case Offer(t, task, w) => OfferOnward(s, t, task, w);
      case Take(w, p) => TakeOnward(s, w, p);
      case Begin(w, sees) => BeginOnward(s, w, sees);
      case Finish(w, sees) => FinishOnward(s, w, sees);
      case Spurious(_) =>
      case Stop =>
    }
  }

  /** The tasks the pool takes in, in a run: those of callers that hold the mutex while it runs and has room. */
  function SubmittedBy(s: State, es: seq<Event>): seq<nat>
    decreases |es|
  {
    if es == [] then []
    else
      var e := es[0];
      var now :=
        if e.Offer? && e.thread in s.callers && (s.waiting != {} ==> e.wakee in s.waiting)
           && s.running && (s.maxQueueSize == 0 || |s.queue| < s.maxQueueSize)
        then [e.task] else [];
      now + SubmittedBy(Step(s, e), es[1..])
  }

  lemma StepSubmits(s: State, e: Event, later: seq<nat>)
    ensures Step(s, e).submitted + later == s.submitted +
      ((if e.Offer? && e.thread in s.callers && (s.waiting != {} ==> e.wakee in s.waiting)
           && s.running && (s.maxQueueSize == 0 || |s.queue| < s.maxQueueSize)
        then [e.task] else []) + later)
  {
  }

  lemma {:induction false} LogOfRun(s: State, es: seq<Event>)
    ensures Run(s, es).submitted == s.submitted + SubmittedBy(s, es)
    decreases |es|
  {
    if es == [] {
      assert s.submitted + [] == s.submitted;
    } else {
      LogOfRun(Step(s, es[0]), es[1..]);
      StepSubmits(s, es[0], SubmittedBy(Step(s, es[0]), es[1..]));
    }
  }

  /** Tasks are taken in the order they were put in, each exactly once; workers are neither lost nor duplicated. */
  lemma {:induction false} TasksInOrder(s: State, es: seq<Event>)
    requires Inv(s)
    ensures var f := Run(s, es);
            && f.taken + f.queue == f.submitted && f.submitted == s.submitted + SubmittedBy(s, es)
            && s.submitted <= f.submitted && s.taken <= f.taken
            && Workers(f) == Workers(s)
            && f.starting !! f.ready !! f.waiting !! f.executing !! f.exited
    decreases |es|
  {
    LogOfRun(s, es);
    if es != [] {
      StepKeepsInv(s, es[0]);
      StepOnward(s, es[0]);
      hide Step;
      TasksInOrder(Step(s, es[0]), es[1..]);
    }
  }

  /** After `stop` nobody waits, ever again: both condition variables were broadcast and no wait is entered. */
  lemma {:induction false} NobodyWaitsAfterStop(s: State, es: seq<Event>)
    requires Inv(s)
    ensures var f := Run(Step(s, Stop), es); !f.running && f.waiting == {} && f.blocked == {}
  {
    StepKeepsInv(s, Stop);
    StaysStopped(Step(s, Stop), es);
    RunKeepsInv(Step(s, Stop), es);
  }

  lemma {:induction false} StaysStopped(s: State, es: seq<Event>)
    requires Inv(s) && !s.running
    ensures !Run(s, es).running
    decreases |es|
  {
    if es != [] {
      StepKeepsInv(s, es[0]);
      StepOnward(s, es[0]);
      StaysStopped(Step(s, es[0]), es[1..]);
    }
  }

  // ---------------------------------------------------------------- what `stop` does with the queue

  /** Every worker has left; `stop` can join them all. */
  predicate AllGone(s: State) {
    s.starting == {} && s.ready == {} && s.waiting == {} && s.executing == {}
  }

  /** With every worker gone nothing is taken any more. */
  lemma {:induction false} AbandonedForGood(s: State, es: seq<Event>)
    requires AllGone(s)
    ensures Run(s, es).taken == s.taken && s.queue <= Run(s, es).queue
    decreases |es|
  {
    if es != [] {
      AbandonedForGood(Step(s, es[0]), es[1..]);
    }
  }

  /** `stop` empties the queue in every continuation, if and only if there are no more queued tasks than
      workers inside `take`.  Every such worker takes a task before it looks at `running_` again; a worker
      that is executing, or has not yet made its first test, may leave at once, and what is then still queued
      is never taken. */
  lemma StopDrainsExactly(s: State)
    requires Inv(s)
    ensures (forall es :: var f := Run(Step(s, Stop), es); AllGone(f) ==> f.queue == [])
            <==> |s.queue| <= |s.ready| + |s.waiting|
  {
    StopKeepsInv(s);
    var t := Step(s, Stop);
    assert t == StopPool(s);
    StoppedReady(s);
    if |s.queue| <= |s.ready| + |s.waiting| {
      forall es ensures var f := Run(t, es); AllGone(f) ==> f.queue == [] {
        StoppedStaysCovered(t, es);
      }
    } else {
      var es := EverybodyLeaves(t);
      var f := Run(t, es);
      assert AllGone(f) && f.queue != [];
    }
  }

  lemma StoppedReady(s: State)
    requires Inv(s)
    ensures |StopPool(s).ready| == |s.ready| + |s.waiting|
  {
    assert s.ready !! s.waiting;
  }

  lemma StoppedStepStaysCovered(s: State, e: Event)
    requires Inv(s) && !s.running && |s.queue| <= |s.ready|
    ensures Inv(Step(s, e)) && !Step(s, e).running && |Step(s, e).queue| <= |Step(s, e).ready|
  {
    StepKeepsInv(s, e);
    assert Apart(s) && s.waiting == {} && s.blocked == {};
    hide Inv;
    if Enabled(s, e) {
      match e
      case Begin(w, _) => assert |s.ready + {w}| == |s.ready| + 1;
      case Finish(w, _) => assert |s.ready + {w}| == |s.ready| + 1;
      case Take(w, _) => assert |s.ready - {w}| == |s.ready| - 1;
      case _ =>
    }
  }

  lemma {:induction false} StoppedStaysCovered(s: State, es: seq<Event>)
    requires Inv(s) && !s.running && |s.queue| <= |s.ready|
    ensures |Run(s, es).queue| <= |Run(s, es).ready|
    decreases |es|
  {
    if es != [] {
      StoppedStepStaysCovered(s, es[0]);
      StoppedStaysCovered(Step(s, es[0]), es[1..]);
    }
  }

  /** A stopped pool with more tasks than workers inside `take`: each of those takes one task, and everybody
      leaves. */
  lemma {:induction false} EverybodyLeaves(s: State) returns (es: seq<Event>)
    requires Inv(s) && !s.running && |s.queue| > |s.ready|
    ensures AllGone(Run(s, es)) && |Run(s, es).queue| == |s.queue| - |s.ready|
    decreases |s.starting| + 2 * |s.ready| + |s.executing|
  {
    if AllGone(s) {
      es := [];
    } else {
      var e := NextToLeave(s);
      var rest := EverybodyLeaves(Step(s, e));
      es := [e] + rest;
      assert es[1..] == rest;
      assert Run(s, es) == Run(Step(s, es[0]), es[1..]);
      hide Step;
    }
  }

  lemma NextToLeave(s: State) returns (e: Event)
    requires Inv(s) && !s.running && |s.queue| > |s.ready| && !AllGone(s)
    ensures var t := Step(s, e);
            && Inv(t) && !t.running && |t.queue| - |t.ready| == |s.queue| - |s.ready|
            && |t.starting| + 2 * |t.ready| + |t.executing| < |s.starting| + 2 * |s.ready| + |s.executing|
  {
    if s.starting != {} {
      var w :| w in s.starting;
      e := Begin(w, false);
      BeginKeepsInv(s, w, false);
    } else if s.ready != {} {
      var w :| w in s.ready;
      e := Take(w, w);
      TakeKeepsInv(s, w, w);
      assert |s.ready - {w}| == |s.ready| - 1;
      assert |s.executing + {w}| == |s.executing| + 1;
    } else {
      var w :| w in s.executing;
      e := Finish(w, false);
      FinishKeepsInv(s, w, false);
    }
  }

  /** In particular a single worker that is executing when the pool stops may leave the whole queue behind. */
  lemma StopMayAbandonTasks(s: State, w: nat)
    requires Inv(s) && s.running && s.executing == {w} && s.starting == {} && s.ready == {} && s.waiting == {}
    ensures var f := Run(s, [Stop, Finish(w, false)]);
            f.queue == s.queue && f.taken == s.taken && AllGone(f)
  {
    var es := [Stop, Finish(w, false)];
    var t := Step(s, es[0]);
    assert es[1..] == [Finish(w, false)] && es[1..][1..] == [];
    assert Run(s, es) == Run(t, es[1..]);
    assert Run(t, es[1..]) == Step(t, Finish(w, false));
  }

  // ---------------------------------------------------------------- a running pool can always finish its work

  /** Some worker has not left. */
  predicate Manned(s: State) {
    s.starting != {} || s.ready != {} || s.waiting != {} || s.executing != {}
  }

  predicate AllDone(s: State) {
    s.queue == [] && s.callers == {} && s.blocked == {}
  }

  /** One more step towards the end: first fewer threads in `run`, then fewer tasks, then fewer workers away
      from `take`. */
  predicate Closer(s: State, t: State) {
    var inRun, inRunThen := |s.callers| + |s.blocked|, |t.callers| + |t.blocked|;
    || inRunThen < inRun
    || (inRunThen == inRun && |t.queue| < |s.queue|)
    || (inRunThen == inRun && t.queue == s.queue && |t.starting| + |t.executing| < |s.starting| + |s.executing|)
  }

  lemma OneCallerFewer(s: State) returns (e: Event)
    requires Inv(s) && s.running && s.queue == [] && s.callers != {}
    ensures Enabled(s, e) && e.Offer?
    ensures Closer(s, Step(s, e)) && Step(s, e).running
  {
    var t :| t in s.callers;
    var w := 0;
    if s.waiting != {} {
      w :| w in s.waiting;
    }
    e := Offer(t, 0, w);
    assert |s.callers - {t}| == |s.callers| - 1;
  }

  lemma OneTaskFewer(s: State) returns (e: Event)
    requires Inv(s) && s.running && s.queue != [] && s.ready != {}
    ensures Enabled(s, e) && e.Take?
    ensures Closer(s, Step(s, e)) && Step(s, e).running
  {
    var w :| w in s.ready;
    var p := 0;
    if s.blocked != {} {
      p :| p in s.blocked;
      assert |s.blocked - {p}| == |s.blocked| - 1;
      assert |s.callers + {p}| == |s.callers| + 1;
    }
    e := Take(w, p);
  }

  lemma OneWorkerBack(s: State) returns (e: Event)
    requires Inv(s) && s.running && s.queue != [] && s.ready == {} && Manned(s)
    ensures Enabled(s, e) && (e.Begin? || e.Finish?)
    ensures Closer(s, Step(s, e)) && Step(s, e).running
  {
    if s.starting != {} {
      var w :| w in s.starting;
      e := Begin(w, true);
      assert |s.starting - {w}| == |s.starting| - 1;
    } else {
      var w :| w in s.executing;
      e := Finish(w, true);
      assert |s.executing - {w}| == |s.executing| - 1;
    }
  }

  lemma StaysManned(s: State, e: Event)
    requires Inv(s) && s.running && Manned(s) && (e.Offer? || e.Take? || e.Begin? || e.Finish?)
    ensures Step(s, e).running && Manned(Step(s, e))
  {
    if Enabled(s, e) {
      match e
      case Begin(w, _) => assert w in Step(s, e).ready;
      case Finish(w, _) => assert w in Step(s, e).ready;
      case Take(w, _) => assert w in Step(s, e).executing || w in Step(s, e).waiting;
      case Offer(_, _, w) => OfferKeepsManned(s, e);
    }
  }

  lemma OfferKeepsManned(s: State, e: Event)
    requires Enabled(s, e) && e.Offer? && Manned(s)
    ensures Manned(Step(s, e))
  {
    if s.waiting != {} {
      assert e.wakee in Step(s, e).ready || s.waiting == Step(s, e).waiting;
    }
  }

  /** From every reachable state of a running pool with a worker that has not left, some continuation, with no
      new call of `run`, takes every task and lets every caller go. */
  lemma {:induction false} CanFinish(s: State) returns (es: seq<Event>)
    requires Inv(s) && s.running && Manned(s)
    ensures AllDone(Run(s, es)) && Run(s, es).running
    ensures forall k :: 0 <= k < |es| ==> !es[k].Call? && !es[k].Stop?
    decreases |s.callers| + |s.blocked|, |s.queue|, |s.starting| + |s.executing|
  {
    hide Inv, Step, Manned, Enabled;
    if s.queue == [] && s.callers == {} {
      es := [];
      NobodyBlocked(s);
    } else {
      var e := TowardsTheEnd(s);
      StepKeepsInv(s, e);
      StaysManned(s, e);
      var rest := CanFinish(Step(s, e));
      es := [e] + rest;
      assert es[1..] == rest;
    }
  }

  lemma NobodyBlocked(s: State)
    requires Inv(s) && s.queue == [] && s.callers == {}
    ensures AllDone(s)
  {
  }

  lemma TowardsTheEnd(s: State) returns (e: Event)
    requires Inv(s) && s.running && Manned(s) && (s.queue != [] || s.callers != {})
    ensures Enabled(s, e) && (e.Offer? || e.Take? || e.Begin? || e.Finish?)
    ensures Closer(s, Step(s, e))
  {
    hide Step, Enabled, Closer;
    if s.queue == [] {
      e := OneCallerFewer(s);
    } else if s.ready != {} {
      e := OneTaskFewer(s);
    } else {
      e := OneWorkerBack(s);
    }
  }

  /** A call of `run` puts its thread on its way to the mutex, and a spurious return puts a waiter there. */
  lemma ArrivalsEnter(s: State, t: nat)
    ensures t !in s.callers && t !in s.blocked ==> Step(s, Call(t)) == s.(callers := s.callers + {t})
    ensures t in s.waiting ==> Step(s, Spurious(t)) == s.(waiting := s.waiting - {t}, ready := s.ready + {t})
    ensures t !in s.waiting && t in s.blocked ==>
              Step(s, Spurious(t)) == s.(blocked := s.blocked - {t}, callers := s.callers + {t})
  {
  }
}
