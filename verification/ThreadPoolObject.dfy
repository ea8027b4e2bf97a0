/** The class of base/thread/ThreadPoolff.h.  A method here is what its namesake does from taking the mutex until it
    releases it, at the end or in a wait. */
module ThreadPoolObject {
  import opened ThreadPool

  class ThreadPoolff {
    var queue: seq<nat>
    const maxQueueSize: nat
    var running: bool
    var starting: set<nat>        // workers before their first test of running_
    var ready: set<nat>
    var notEmpty: set<nat>        // workers waiting on notEmpty_
    var executing: set<nat>
    var exited: set<nat>
    var callers: set<nat>
    var notFull: set<nat>         // callers waiting on notFull_
    ghost var submitted: seq<nat>
    ghost var taken: seq<nat>

    ghost function View(): State
      reads this
    {
      State(queue, maxQueueSize, running, starting, ready, notEmpty, executing, exited, callers, notFull,
        submitted, taken)
    }

    /** `start`. */
    constructor (workers: set<nat>, max: nat)
      ensures View() == Init(workers, max) && Inv(View())
    {
      queue, maxQueueSize, running := [], max, true;
      starting, ready, notEmpty, executing, exited, callers, notFull := workers, {}, {}, {}, {}, {}, {};
      submitted, taken := [], [];
    }

    predicate Full()
      reads this
    {
      maxQueueSize > 0 && |queue| >= maxQueueSize
    }

    method NotifyNotEmpty(wakee: nat)
      requires notEmpty != {} ==> wakee in notEmpty
      modifies this`notEmpty, this`ready
      ensures View() == SignalWorker(old(View()), wakee)
    {
      if notEmpty != {} {
        notEmpty := notEmpty - {wakee};
        ready := ready + {wakee};
      }
    }

    method NotifyNotFull(wakee: nat)
      requires notFull != {} ==> wakee in notFull
      modifies this`notFull, this`callers
      ensures View() == SignalCaller(old(View()), wakee)
    {
      if notFull != {} {
        notFull := notFull - {wakee};
        callers := callers + {wakee};
      }
    }

    /** `run` of thread `t`, which is blocked afterwards exactly if the pool is running and the queue full. */
    method Run(t: nat, task: nat, wakee: nat)
      requires Inv(View()) && Enabled(View(), Offer(t, task, wakee))
      modifies this
      ensures Inv(View()) && View() == Step(old(View()), Offer(t, task, wakee))
      ensures t in notFull <==> old(running) && old(Full())
      ensures old(running) && !old(Full()) ==> queue == old(queue) + [task]
    {
      OfferKeepsInv(View(), t, task, wakee);
      callers := callers - {t};
      if Full() && running {
        notFull := notFull + {t};
        return;
      }
      if !running {
        return;
      }
      assert !Full();
      queue := queue + [task];
      submitted := submitted + [task];
      NotifyNotEmpty(wakee);
    }

    /** The test of `while(running_)` in `runInThread`, before the first task and after each; `sees` is what
        it reads. */
    method TestRunning(w: nat, sees: bool) returns (again: bool)
      requires Inv(View()) && (w in starting || w in executing) && (running ==> sees)
      modifies this`starting, this`executing, this`ready, this`exited
      ensures Inv(View()) && again == sees
      ensures View() == Step(old(View()), if w in old(starting) then Begin(w, sees) else Finish(w, sees))
    {
      StepKeepsInv(View(), if w in starting then Begin(w, sees) else Finish(w, sees));
      if w in starting {
        starting := starting - {w};
      } else {
        executing := executing - {w};
      }
      again := sees;
      if again {
        ready := ready + {w};
      } else {
        exited := exited + {w};
      }
    }

    /** `take` of worker `w`: no task while it waits, and none when the pool has stopped with an empty queue. */
    method Take(w: nat, wakee: nat) returns (waits: bool, found: bool, task: nat)
      requires Inv(View()) && Enabled(View(), Event.Take(w, wakee))
      modifies this
      ensures Inv(View()) && View() == Step(old(View()), Event.Take(w, wakee))
      ensures waits <==> old(queue) == [] && old(running)
      ensures found <==> old(queue) != []
      ensures found ==> old(queue) == [task] + queue && w in executing
    {
      TakeKeepsInv(View(), w, wakee);
      hide Inv;
      waits, found, task := false, false, 0;
      if queue == [] && running {
        ready := ready - {w};
        notEmpty := notEmpty + {w};
        waits := true;
        return;
      }
      if queue != [] {
        task := PopFront(w);
        found := true;
        if maxQueueSize > 0 {
          NotifyNotFull(wakee);
        }
      } else {
        ready := ready - {w};
        exited := exited + {w};
      }
    }

    /** The worker leaves with the oldest task. */
    method PopFront(w: nat) returns (task: nat)
      requires queue != []
      modifies this`queue, this`ready, this`executing, this`taken
      ensures View() == PopTask(old(View()), w) && old(queue) == [task] + queue
    {
      task := queue[0];
      ready := ready - {w};
      queue := queue[1..];
      taken := taken + [task];
      executing := executing + {w};
    }

    method Stop()
      requires Inv(View())
      modifies this
      ensures Inv(View()) && View() == StopPool(old(View()))
      ensures notEmpty == {} && notFull == {}
    {
      StopKeepsInv(View());
      running := false;
      ready, notEmpty := ready + notEmpty, {};
      callers, notFull := callers + notFull, {};
    }
  }
}
