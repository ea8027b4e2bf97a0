/** Closed connections come to their end: from every quiet state the loops by themselves can take each of them to its
    destroy. */
module LifecycleProgress {
  import opened Common
  import opened Lifecycle
  import opened LifecycleTheorems

  /** What a loop does by itself: no call of a user, no accept, no end of file, no release. */
  predicate ByItself(e: Event) {
    e.CloseCallback? || e.Readable? || e.SwapFunctors? || e.DeliverHead? || (e.Poll? && e.ready == {})
  }

  predicate AllByThemselves(es: seq<Event>) {
    forall k :: 0 <= k < |es| ==> ByItself(es[k])
  }

  ghost predicate Fine(s: State) {
    Inv(s) && Quiet(s)
  }

  lemma StepStaysFine(s: State, e: Event)
    requires Fine(s) && ByItself(e)
    ensures Step(s, e).Ok? && Fine(Step(s, e).state)
  {
    StepKeepsQuiet(s, e);
  }

  // ---------------------------------------------------------------- what a step does to a queue

  lemma DeliveredQueue(s: State, l: nat)
    requires Queue(s, l) != [] && Queue(s, l)[0].conn in s.conns && Deliver(s, l).Ok?
    ensures Queue(s, l)[1..] <= Queue(Deliver(s, l).state, l)
    ensures Queue(s, l)[0].conn in Deliver(s, l).state.conns
    ensures var c := Queue(s, l)[0].conn; |Deliver(s, l).state.conns[c].log| == |s.conns[c].log| + 1
  {
    hide SetInterest;
    var p := Pop(s, l);
    match Queue(s, l)[0]
    case Establish(c) =>
      var t := Mark(Set(p, c, p.conns[c].(state := Connected)), c, Established);
      InterestOwn(t, c, true, t.conns[c].write);
      InterestIsLocal(t, c, true, t.conns[c].write);
    case Remove(_) =>
    case Destroy(c) => DestroyedQueue(p, c);
  }

  lemma DestroyedQueue(s: State, c: nat)
    requires c in s.conns && ConnectionDestroy(s, c).Ok?
    ensures var t := ConnectionDestroy(s, c).state;
            t.queues == s.queues && c in t.conns && |t.conns[c].log| == |s.conns[c].log| + 1
  {
    hide SetInterest;
    DestroyIsLocal(s, c);
    if s.conns[c].state.Connected? {
      InterestOwn(Set(s, c, s.conns[c].(state := Disconnected)), c, false, false);
    }
  }

  lemma HeadGone(s: State, l: nat)
    requires Enabled(s, DeliverHead(l)) && Step(s, DeliverHead(l)).Ok?
    ensures var t := Step(s, DeliverHead(l)).state;
            && Queue(s, l)[1..] <= Queue(t, l)
            && Queue(s, l)[0].conn in t.conns
            && |t.conns[Queue(s, l)[0].conn].log| == |s.conns[Queue(s, l)[0].conn].log| + 1
  {
    hide Deliver;
    var u := SetTurn(s, l, Running(TurnOf(s, l).left - 1));
    assert Queue(u, l) == Queue(s, l);
    DeliveredQueue(u, l);
  }

  /** The other things a loop does only add to queues. */
  lemma QueueGrows(s: State, e: Event, l: nat)
    requires ByItself(e) && !e.DeliverHead? && Step(s, e).Ok?
    ensures Queue(s, l) <= Queue(Step(s, e).state, l)
  {
  }

  // ---------------------------------------------------------------- until a message is delivered

  /** How far the loop is from running a functor. */
  function Rank(s: State, l: nat): nat {
    match TurnOf(s, l)
    case Handling => 1
    case Running(left) => if left > 0 then 0 else 2
  }

  /** One more thing done on the way there. */
  predicate Sooner(s: State, t: State, l: nat) {
    && Closing(t, l) <= Closing(s, l) && Unhandled(t, l) <= Unhandled(s, l)
    && (Closing(t, l) != Closing(s, l) || Unhandled(t, l) != Unhandled(s, l) || Rank(t, l) < Rank(s, l))
  }

  lemma Tidy(s: State, l: nat) returns (e: Event)
    requires Fine(s) && !AtRest(s, l)
    ensures (e.CloseCallback? || e.Readable?) && Step(s, e).Ok? && Sooner(s, Step(s, e).state, l)
  {
    hide Inv, Step;
    if Closing(s, l) != {} {
      var d :| d in Closing(s, l);
      e := CloseCallback(d);
    } else {
      var d :| d in Unhandled(s, l);
      e := Readable(d);
    }
    StepStaysFine(s, e);
    NoNewClosing(s, e, l);
    DistanceShrinks(s, e, l);
  }

  lemma TurnsAround(s: State, l: nat) returns (e: Event)
    requires AtRest(s, l) && (TurnOf(s, l).Handling? || TurnOf(s, l).left == 0)
    ensures (e == SwapFunctors(l) || e == Poll(l, {})) && Step(s, e).Ok?
    ensures Queue(s, l) != [] ==> Sooner(s, Step(s, e).state, l)
  {
    EmptyMeansDone(s, l);
    if TurnOf(s, l).Handling? {
      e := SwapFunctors(l);
    } else {
      e := Poll(l, {});
      assert s.reported + {} == s.reported;
    }
  }

  lemma CanDeliver(s: State, l: nat)
    requires Inv(s) && AtRest(s, l) && Queue(s, l) != [] && TurnOf(s, l).Running? && TurnOf(s, l).left > 0
    ensures Enabled(s, DeliverHead(l))
  {
    EmptyMeansDone(s, l);
    HeadInFlight(s, l);
  }

  lemma SoonerDecreases(s: State, t: State, l: nat)
    requires Sooner(s, t, l)
    ensures |Closing(t, l)| + |Unhandled(t, l)| < |Closing(s, l)| + |Unhandled(s, l)|
            || (|Closing(t, l)| + |Unhandled(t, l)| == |Closing(s, l)| + |Unhandled(s, l)| && Rank(t, l) < Rank(s, l))
  {
    SubsetSize(Closing(t, l), Closing(s, l));
    SubsetSize(Unhandled(t, l), Unhandled(s, l));
  }

  /** The connection's life in `t` goes on from its life in `s`, further. */
  predicate Further(s: State, t: State, c: nat) {
    c in s.conns && c in t.conns && s.conns[c].log <= t.conns[c].log && |s.conns[c].log| < |t.conns[c].log|
  }

  /** The p-th functor of a loop's queue gets its turn. */
  lemma {:induction false} Delivers(s: State, l: nat, p: nat) returns (es: seq<Event>)
    requires Fine(s) && p < |Queue(s, l)|
    ensures AllByThemselves(es) && Run(s, es).Ok? && Fine(Run(s, es).state)
    ensures Further(s, Run(s, es).state, Queue(s, l)[p].conn)
    decreases |Closing(s, l)| + |Unhandled(s, l)|, p, Rank(s, l)
  {
    hide Fine, Step, Inv, Enabled;
    var m := Queue(s, l)[p];
    if AtRest(s, l) && TurnOf(s, l).Running? && TurnOf(s, l).left > 0 {
      es := DeliversNext(s, l, p);
    } else {
      var e;
      if AtRest(s, l) {
        e := TurnsAround(s, l);
      } else {
        e := Tidy(s, l);
      }
      StepStaysFine(s, e);
      QueueGrows(s, e, l);
      var t := Step(s, e).state;
      SoonerDecreases(s, t, l);
      var rest := Delivers(t, l, p);
      es := Prepend(s, e, rest, m.conn);
    }
  }

  lemma {:induction false} DeliversNext(s: State, l: nat, p: nat) returns (es: seq<Event>)
    requires Fine(s) && p < |Queue(s, l)| && AtRest(s, l) && TurnOf(s, l).Running? && TurnOf(s, l).left > 0
    ensures AllByThemselves(es) && Run(s, es).Ok? && Fine(Run(s, es).state)
    ensures Further(s, Run(s, es).state, Queue(s, l)[p].conn)
    decreases |Closing(s, l)| + |Unhandled(s, l)|, p, Rank(s, l), 0
  {
    hide Fine, Step, Inv, Enabled;
    var c := Queue(s, l)[p].conn;
    var e := DeliverHead(l);
    FineIsInv(s);
    CanDeliver(s, l);
    StepStaysFine(s, e);
    HeadGone(s, l);
    NoNewClosing(s, e, l);
    var t := Step(s, e).state;
    if p == 0 {
      HeadKnown(s, l);
      StepMoves(s, e, c);
      es := [e];
      RunOne(s, e);
    } else {
      SubsetSize(Closing(t, l), Closing(s, l));
      SubsetSize(Unhandled(t, l), Unhandled(s, l));
      var rest := Delivers(t, l, p - 1);
      es := Prepend(s, e, rest, c);
    }
  }

  lemma FineIsInv(s: State)
    requires Fine(s)
    ensures Inv(s)
  {
  }

  lemma HeadKnown(s: State, l: nat)
    requires Inv(s) && Queue(s, l) != []
    ensures Queue(s, l)[0].conn in s.conns
  {
    HeadInFlight(s, l);
  }

  lemma Prepend(s: State, e: Event, rest: seq<Event>, c: nat) returns (es: seq<Event>)
    requires Fine(s) && ByItself(e) && Step(s, e).Ok? && AllByThemselves(rest)
    requires Run(Step(s, e).state, rest).Ok? && Further(Step(s, e).state, Run(Step(s, e).state, rest).state, c)
    ensures AllByThemselves(es) && Run(s, es) == Run(Step(s, e).state, rest)
    ensures Further(s, Run(s, es).state, c)
  {
    es := [e] + rest;
    assert es[1..] == rest;
    hide Step, Inv;
    StepIsLocal(s, e);
    StepMovesForward(s, e);
  }

  // ---------------------------------------------------------------- to the destroy

  lemma Awaited(s: State, c: nat) returns (l: nat, p: nat)
    requires Inv(s) && c in s.conns && s.conns[c].state.Disconnected? && |s.conns[c].log| <= 4 && !s.conns[c].closing
    ensures p < |Queue(s, l)| && Queue(s, l)[p].conn == c
  {
    StageFacts(s, c);
    var m := if |s.conns[c].log| == 3 then Remove(c) else Destroy(c);
    l := if |s.conns[c].log| == 3 then MAIN else s.conns[c].loop;
    assert InFlight(s, l, m);
    assert Count(s, l, m) == 1;
    assert m in multiset(Queue(s, l));
    p :| p < |Queue(s, l)| && Queue(s, l)[p] == m;
  }

  /** From every quiet state each closed connection can be brought to its destroy by the loops alone. */
  lemma {:induction false} ReachesDestroy(s: State, c: nat) returns (es: seq<Event>)
    requires Fine(s) && c in s.conns && s.conns[c].state.Disconnected?
    ensures AllByThemselves(es) && Run(s, es).Ok? && Fine(Run(s, es).state)
    ensures c in Run(s, es).state.conns
    ensures Run(s, es).state.conns[c].log == [Accepted, Established, Closed, Erased, Destroyed]
    decreases 5 - |s.conns[c].log|, s.conns[c].closing
  {
    hide Step, Inv, Enabled;
    FineIsInv(s);
    StageFacts(s, c);
    if |s.conns[c].log| == 5 {
      es := [];
    } else {
      var first, t := NextStage(s, c);
      FineIsInv(t);
      StageFacts(t, c);
      var rest := ReachesDestroy(t, c);
      es := first + rest;
      RunAppend(s, first, rest);
    }
  }

  /** The next stage of a closed connection's life, or the end of its close callback. */
  lemma NextStage(s: State, c: nat) returns (es: seq<Event>, t: State)
    requires Fine(s) && c in s.conns && s.conns[c].state.Disconnected? && |s.conns[c].log| <= 4
    ensures AllByThemselves(es) && Run(s, es) == Ok(t) && Fine(t)
    ensures c in t.conns && t.conns[c].state.Disconnected? && s.conns[c].log <= t.conns[c].log
    ensures |t.conns[c].log| > |s.conns[c].log| || (s.conns[c].closing && !t.conns[c].closing)
  {
    hide Step, Inv, Enabled;
    FineIsInv(s);
    StageFacts(s, c);
    if s.conns[c].closing {
      var e := CloseCallback(c);
      es := [e];
      StepStaysFine(s, e);
      RunOne(s, e);
      t := Step(s, e).state;
      StepMoves(s, e, c);
    } else {
      var l, p := Awaited(s, c);
      es := Delivers(s, l, p);
      t := Run(s, es).state;
    }
    FineIsInv(t);
    StageFacts(t, c);
  }
}
