/** What holds of every run of connections across their loops: exactly which runs fail an assert, what user
    code must refrain from, and the one life of each connection. */
module LifecycleTheorems {
  import opened Common
  import opened Lifecycle

  lemma InitInv()
    ensures Inv(Init())
  {
    assert forall l, m :: Count(Init(), l, m) == 0;
  }

  // ---------------------------------------------------------------- which runs fail an assert

  /** No step of the run is one of the three missteps. */
  predicate NoMisstep(s: State, es: seq<Event>)
    decreases |es|
  {
    es == [] || (!Misstep(s, es[0]) && (Step(s, es[0]).Ok? ==> NoMisstep(Step(s, es[0]).state, es[1..])))
  }

  lemma {:induction false} RunSucceedsExactly(s: State, es: seq<Event>)
    requires Inv(s)
    ensures Run(s, es).Ok? <==> NoMisstep(s, es)
    ensures Run(s, es).Ok? ==> Inv(Run(s, es).state)
    decreases |es|
  {
    if es != [] {
      StepSucceedsExactly(s, es[0]);
      hide Inv, Step, Misstep;
      if !Misstep(s, es[0]) {
        RunSucceedsExactly(Step(s, es[0]).state, es[1..]);
      }
    }
  }

  /** Of all runs, with user calls at any moment, exactly those fail an assert in which a destroy finds its
      connection reading, end of file is handled on a connection already closed, or a connection is dropped
      while a loop knows its channel.  Whatever happens, each erase removes one entry, each establishment
      finds `kConnecting`, and no reused descriptor meets its predecessor in a poller. */
  lemma NoAssertFails(es: seq<Event>)
    ensures Run(Init(), es).Ok? <==> NoMisstep(Init(), es)
  {
    InitInv();
    RunSucceedsExactly(Init(), es);
  }

  // ---------------------------------------------------------------- what user code must refrain from

  /** No `startRead` after the close; no `stopRead` after the destroy of a connection whose `isReading` says yes; no
      `forceClose` of an open connection that this poll has reported and its own handler has not yet looked at. */
  predicate Careful(s: State, e: Event) {
    e.User? && Enabled(s, e) ==>
      var k := s.conns[e.conn];
      && (e.action.StartRead? ==> !k.state.Disconnected?)
      && (e.action.StopRead? && Destroyed in k.log ==> !k.reading)
      && (e.action.ForceClose? && !k.state.Disconnected? ==> e.conn !in s.reported)
  }

  predicate CarefulRun(s: State, es: seq<Event>)
    decreases |es|
  {
    es == [] || (Careful(s, es[0]) && (Step(s, es[0]).Ok? ==> CarefulRun(Step(s, es[0]).state, es[1..])))
  }

  predicate QuietConn(s: State, c: nat)
    requires c in s.conns
  {
    && (s.conns[c].state.Disconnected? ==> !s.conns[c].read && c !in s.reported)
    && (|s.conns[c].log| == 5 ==> s.conns[c].index.New?)
  }

  /** A closed connection reads nothing and is in no active list, and a destroyed one in no poller. */
  predicate Quiet(s: State) {
    forall c :: c in s.conns ==> QuietConn(s, c)
  }

  // ---------------------------------------------------------------- what a step does to one connection

  /** The connections a step is about. */
  predicate Touches(s: State, e: Event, c: nat) {
    && Enabled(s, e)
    && match e
       case DeliverHead(l) => Queue(s, l)[0].conn == c
       case EndOfFile(d) => d == c
       case Drained(d) => d == c
       case User(d, _) => d == c
       case CloseCallback(d) => d == c
       case Release(d) => d == c
       case _ => false
  }

  lemma NewNameIsFree(s: State)
    requires Inv(s)
    ensures s.nextId !in s.conns
  {
  }

  predicate SameConn(s: State, t: State, c: nat) {
    c in s.conns && c in t.conns && t.conns[c] == s.conns[c]
  }

  lemma InterestIsLocal(s: State, c: nat, read: bool, write: bool)
    requires c in s.conns && SetInterest(s, c, read, write).Ok?
    ensures forall d :: d in s.conns && d != c ==> SameConn(s, SetInterest(s, c, read, write).state, d)
    ensures SetInterest(s, c, read, write).state.reported == s.reported &&
      SetInterest(s, c, read, write).state.conns.Keys == s.conns.Keys
    ensures SetInterest(s, c, read, write).state.turns == s.turns
    ensures SetInterest(s, c, read, write).state.queues == s.queues
  {
  }

  lemma EstablishIsLocal(s: State, c: nat)
    requires c in s.conns && ConnectionEstablished(s, c).Ok?
    ensures forall d :: d in s.conns && d != c ==> SameConn(s, ConnectionEstablished(s, c).state, d)
    ensures ConnectionEstablished(s, c).state.reported == s.reported &&
      ConnectionEstablished(s, c).state.conns.Keys == s.conns.Keys
    ensures ConnectionEstablished(s, c).state.turns == s.turns && ConnectionEstablished(s, c).state.queues == s.queues
  {
    var t := Mark(Set(s, c, s.conns[c].(state := Connected)), c, Established);
    InterestIsLocal(t, c, true, t.conns[c].write);
    hide SetInterest;
  }

  lemma CloseIsLocal(s: State, c: nat)
    requires c in s.conns && BeginClose(s, c).Ok?
    ensures forall d :: d in s.conns && d != c ==> SameConn(s, BeginClose(s, c).state, d)
    ensures BeginClose(s, c).state.reported == s.reported && BeginClose(s, c).state.conns.Keys == s.conns.Keys
  {
    var t := Mark(Set(s, c, s.conns[c].(state := Disconnected, closing := true)), c, Closed);
    InterestIsLocal(t, c, false, false);
    hide SetInterest;
  }

  lemma DestroyIsLocal(s: State, c: nat)
    requires c in s.conns && ConnectionDestroy(s, c).Ok?
    ensures forall d :: d in s.conns && d != c ==> SameConn(s, ConnectionDestroy(s, c).state, d)
    ensures ConnectionDestroy(s, c).state.reported == s.reported &&
      ConnectionDestroy(s, c).state.conns.Keys == s.conns.Keys
    ensures ConnectionDestroy(s, c).state.turns == s.turns && ConnectionDestroy(s, c).state.queues == s.queues
  {
    if s.conns[c].state.Connected? {
      InterestIsLocal(Set(s, c, s.conns[c].(state := Disconnected)), c, false, false);
    }
    hide SetInterest;
  }

  lemma DeliverIsLocal(s: State, l: nat)
    requires Queue(s, l) != [] && Queue(s, l)[0].conn in s.conns && Deliver(s, l).Ok?
    ensures forall d :: d in s.conns && d != Queue(s, l)[0].conn ==> SameConn(s, Deliver(s, l).state, d)
    ensures Deliver(s, l).state.reported == s.reported && Deliver(s, l).state.conns.Keys == s.conns.Keys
    ensures Deliver(s, l).state.turns == s.turns
  {
    hide ConnectionEstablished, ConnectionDestroy;
    match Queue(s, l)[0]
    case Establish(c) => EstablishIsLocal(Pop(s, l), c);
    case Remove(_) =>
    case Destroy(c) => DestroyIsLocal(Pop(s, l), c);
  }

  lemma ActIsLocal(s: State, c: nat, a: Action)
    requires c in s.conns && Act(s, c, a).Ok?
    ensures forall d :: d in s.conns && d != c ==> SameConn(s, Act(s, c, a).state, d)
    ensures Act(s, c, a).state.reported == s.reported && Act(s, c, a).state.conns.Keys == s.conns.Keys
  {
    var k := s.conns[c];
    match a
    case Shutdown =>
    case ForceClose =>
      if k.state.Connected? || k.state.Disconnecting? {
        CloseIsLocal(s, c);
        hide SetInterest, BeginClose;
      }
    case StartRead => ReadCallIsLocal(s, c, a);
    case StopRead => ReadCallIsLocal(s, c, a);
    case WantWrite =>
      if (k.state.Connected? || k.state.Disconnecting?) && !OnlyWriting(k) {
        InterestIsLocal(s, c, k.read, true);
        hide SetInterest, BeginClose;
      }
  }

  lemma ReadCallIsLocal(s: State, c: nat, a: Action)
    requires c in s.conns && Act(s, c, a).Ok? && (a.StartRead? || a.StopRead?)
    ensures forall d :: d in s.conns && d != c ==> SameConn(s, Act(s, c, a).state, d)
    ensures Act(s, c, a).state.reported == s.reported && Act(s, c, a).state.conns.Keys == s.conns.Keys
  {
    var k := s.conns[c];
    if a.StartRead? && (!k.reading || !OnlyReading(k)) {
      SetThenInterestIsLocal(s, c, k.(reading := true), true, k.write);
    }
    if a.StopRead? && (k.reading || OnlyReading(k)) {
      SetThenInterestIsLocal(s, c, k.(reading := false), false, k.write);
    }
    hide SetInterest, BeginClose, Set;
  }

  lemma SetThenInterestIsLocal(s: State, c: nat, k: Conn, read: bool, write: bool)
    requires c in s.conns && SetInterest(Set(s, c, k), c, read, write).Ok?
    ensures var t := SetInterest(Set(s, c, k), c, read, write).state;
            && (forall d :: d in s.conns && d != c ==> SameConn(s, t, d))
            && t.reported == s.reported && t.conns.Keys == s.conns.Keys
  {
    hide SetInterest;
    InterestIsLocal(Set(s, c, k), c, read, write);
    var t := SetInterest(Set(s, c, k), c, read, write).state;
    forall d | d in s.conns && d != c ensures SameConn(s, t, d) {
      assert SameConn(Set(s, c, k), t, d);
    }
  }

  lemma AcceptIsLocal(s: State, fd: nat, loop: nat)
    requires s.nextId !in s.conns && NewConnection(s, fd, loop).Ok?
    ensures forall d :: d in s.conns ==> SameConn(s, NewConnection(s, fd, loop).state, d)
    ensures NewConnection(s, fd, loop).state.reported == s.reported
    ensures NewConnection(s, fd, loop).state.conns.Keys == s.conns.Keys + {s.nextId}
    ensures |NewConnection(s, fd, loop).state.conns[s.nextId].log| <= 2
  {
    if loop == MAIN {
      EstablishIsLocal(Accepting(s, fd, loop), s.nextId);
      var p := Accepting(s, fd, loop);
      var t := Mark(Set(p, s.nextId, p.conns[s.nextId].(state := Connected)), s.nextId, Established);
      InterestOwn(t, s.nextId, true, false);
      hide SetInterest;
    }
  }

  /** What a step may change outside its own connection. */
  predicate Local(s: State, e: Event, t: State) {
    && (forall d :: d in s.conns && !Touches(s, e, d) ==> SameConn(s, t, d))
    && t.conns.Keys == s.conns.Keys + (if Enabled(s, e) && e.Accept? then {s.nextId} else {})
    && (Enabled(s, e) && e.Accept? ==> |t.conns[s.nextId].log| <= 2)
    && t.reported ==
         if !Enabled(s, e) then s.reported
         else if e.Poll? then s.reported + e.ready
         else if e.Readable? || e.EndOfFile? then s.reported - {e.conn}
         else s.reported
  }

  /** A step changes no connection but its own, and the active lists only where it says so. */
  lemma StepIsLocal(s: State, e: Event)
    requires Inv(s) && Step(s, e).Ok?
    ensures Local(s, e, Step(s, e).state)
  {
    NewNameIsFree(s);
    hide Inv, NewConnection, Deliver, BeginClose, SetInterest, Act;
    if Enabled(s, e) {
      hide Local;
      match e
      case Accept(fd, loop) => AcceptStepIsLocal(s, fd, loop);
      case DeliverHead(l) => DeliverStepIsLocal(s, l);
      case EndOfFile(c) => EndOfFileStepIsLocal(s, c);
      case User(c, a) => UserStepIsLocal(s, c, a);
      case _ => OtherStepIsLocal(s, e);
    }
  }

  lemma AcceptStepIsLocal(s: State, fd: nat, loop: nat)
    requires s.nextId !in s.conns && Enabled(s, Accept(fd, loop)) && Step(s, Accept(fd, loop)).Ok?
    ensures Local(s, Accept(fd, loop), Step(s, Accept(fd, loop)).state)
  {
    AcceptIsLocal(s, fd, loop);
    hide NewConnection;
  }

  lemma DeliverStepIsLocal(s: State, l: nat)
    requires Enabled(s, DeliverHead(l)) && Step(s, DeliverHead(l)).Ok?
    ensures Local(s, DeliverHead(l), Step(s, DeliverHead(l)).state)
  {
    hide Deliver;
    DeliverIsLocal(SetTurn(s, l, Running(TurnOf(s, l).left - 1)), l);
  }

  lemma EndOfFileStepIsLocal(s: State, c: nat)
    requires Enabled(s, EndOfFile(c)) && Step(s, EndOfFile(c)).Ok?
    ensures Local(s, EndOfFile(c), Step(s, EndOfFile(c)).state)
  {
    CloseIsLocal(Unreport(s, c), c);
    hide BeginClose;
  }

  lemma UserStepIsLocal(s: State, c: nat, a: Action)
    requires Enabled(s, User(c, a)) && Step(s, User(c, a)).Ok?
    ensures Local(s, User(c, a), Step(s, User(c, a)).state)
  {
    ActIsLocal(s, c, a);
    hide Act;
  }

  lemma OtherStepIsLocal(s: State, e: Event)
    requires Enabled(s, e) && Step(s, e).Ok?
    requires !e.Accept? && !e.DeliverHead? && !e.EndOfFile? && !e.User?
    ensures Local(s, e, Step(s, e).state)
  {
    if e.Drained? {
      InterestIsLocal(s, e.conn, s.conns[e.conn].read, false);
    }
    hide SetInterest;
  }

  function AfterCall(e: Event, c: nat, on: bool): bool {
    if e == User(c, StartRead) then true else if e == User(c, StopRead) then false else on
  }

  /** The same for an open connection, where `stopRead` can be lost: `isReading` of the channel is no while
      write interest is on, so without an earlier `startRead` the call finds nothing to stop. */
  predicate AfterOpenCall(e: Event, c: nat, k: Conn) {
    if e == User(c, StartRead) then true
    else if e == User(c, StopRead) && (k.reading || !k.write) then false
    else k.read
  }

  /** A call that gives the channel of a destroyed connection back to a loop. */
  predicate Brings(e: Event, c: nat, reading: bool) {
    e == User(c, StartRead) || (reading && e == User(c, StopRead))
  }

  /** How `k` becomes `n` in a step of its own. */
  predicate Moves(e: Event, c: nat, k: Conn, n: Conn) {
    && k.log <= n.log && |n.log| <= |k.log| + 1
    && (k.released ==> n.released) && n.loop == k.loop
    && (e.User? && |k.log| >= 3 ==> n.log == k.log && n.released == k.released)
    && n.fd == k.fd && (|k.log| >= 2 ==> n.reading == AfterCall(e, c, k.reading) || k.released)
    && (|k.log| == 1 && |n.log| == 2 ==> n.read && !n.write && n.state == Connected)
    && (|k.log| == 2 && |n.log| == 2 ==>
         && n.read == AfterOpenCall(e, c, k)
         && n.write == (e == User(c, WantWrite) || (k.write && !(e == Drained(c) && k.index.Added? && !k.read)))
         && n.state == if e == User(c, Shutdown) then Disconnecting else k.state)
    && (n.closing ==> e.User? || e.EndOfFile? || (k.closing && e != CloseCallback(c)))
    && (|k.log| == 2 && |n.log| == 3 ==> !n.read && (e == EndOfFile(c) || e == User(c, ForceClose)))
    && (|k.log| >= 3 && |n.log| <= 4 ==> n.read == AfterCall(e, c, k.read))
    && (|k.log| == 4 && |n.log| == 5 ==> !k.read && n.index.New? && n.reading == k.reading && !n.read)
    && (|k.log| == 5 && !n.released ==>
         (n.index.New? <==> k.index.New? && !Brings(e, c, k.reading)) && (n.index.New? ==> n.reading == k.reading))
    && (|k.log| == 5 && n.index.New? ==> !n.read)
  }

  lemma InterestOwn(s: State, c: nat, read: bool, write: bool)
    requires c in s.conns && SetInterest(s, c, read, write).Ok?
    ensures var n := SetInterest(s, c, read, write).state.conns;
            c in n && !n[c].index.New? && n[c] == s.conns[c].(read := read, write := write, index := n[c].index)
  {
    hide Registered;
  }

  lemma CloseMoves(s: State, e: Event, c: nat)
    requires Inv(s) && c in s.conns && BeginClose(s, c).Ok? && (e == EndOfFile(c) || e == User(c, ForceClose))
    ensures c in BeginClose(s, c).state.conns && Moves(e, c, s.conns[c], BeginClose(s, c).state.conns[c])
  {
    var t := Mark(Set(s, c, s.conns[c].(state := Disconnected, closing := true)), c, Closed);
    InterestOwn(t, c, false, false);
    hide SetInterest;
  }

  lemma ActMoves(s: State, c: nat, a: Action)
    requires Inv(s) && Enabled(s, User(c, a)) && Act(s, c, a).Ok?
    ensures c in Act(s, c, a).state.conns && Moves(User(c, a), c, s.conns[c], Act(s, c, a).state.conns[c])
  {
    var k := s.conns[c];
    assert StageOk(k, c in s.registry);
    hide SetInterest, BeginClose, Inv;
    match a
    case Shutdown =>
    case ForceClose => if k.state.Connected? || k.state.Disconnecting? { CloseMoves(s, User(c, a), c); }
    case StartRead => ReadCallMoves(s, c, a);
    case StopRead => ReadCallMoves(s, c, a);
    case WantWrite =>
      if (k.state.Connected? || k.state.Disconnecting?) && !OnlyWriting(k) { InterestOwn(s, c, k.read, true); }
  }

  lemma ReadCallMoves(s: State, c: nat, a: Action)
    requires c in s.conns && StageOk(s.conns[c], c in s.registry) && (a.StartRead? || a.StopRead?)
    requires Enabled(s, User(c, a)) && Act(s, c, a).Ok?
    ensures c in Act(s, c, a).state.conns && Moves(User(c, a), c, s.conns[c], Act(s, c, a).state.conns[c])
  {
    hide SetInterest, BeginClose;
    var k := s.conns[c];
    if a.StartRead? && (!k.reading || !OnlyReading(k)) {
      InterestOwn(Set(s, c, k.(reading := true)), c, true, k.write);
    }
    if a.StopRead? && (k.reading || OnlyReading(k)) {
      InterestOwn(Set(s, c, k.(reading := false)), c, false, k.write);
    }
  }

  lemma DeliverMoves(s: State, l: nat)
    requires Inv(s) && Queue(s, l) != [] && Queue(s, l)[0].conn in s.conns && Deliver(s, l).Ok?
    ensures var c := Queue(s, l)[0].conn;
            c in Deliver(s, l).state.conns && Moves(DeliverHead(l), c, s.conns[c], Deliver(s, l).state.conns[c])
  {
    var p := Pop(s, l);
    HeadInFlight(s, l);
    match Queue(s, l)[0]
    case Establish(c) =>
      var q := Mark(Set(p, c, p.conns[c].(state := Connected)), c, Established);
      InterestOwn(q, c, true, q.conns[c].write);
      hide SetInterest;
    case Remove(_) =>
    case Destroy(c) =>
      assert p.conns[c].state.Disconnected?;
      hide SetInterest;
  }

  lemma DeliverStepMoves(s: State, l: nat)
    requires Inv(s) && Enabled(s, DeliverHead(l)) && Step(s, DeliverHead(l)).Ok?
    ensures var c := Queue(s, l)[0].conn;
            && c in Step(s, DeliverHead(l)).state.conns
            && Moves(DeliverHead(l), c, s.conns[c], Step(s, DeliverHead(l)).state.conns[c])
  {
    hide Deliver, Moves, Inv;
    var left := TurnOf(s, l).left - 1;
    TurnKeepsInv(s, l, Running(left));
    assert Queue(SetTurn(s, l, Running(left)), l) == Queue(s, l);
    DeliverMoves(SetTurn(s, l, Running(left)), l);
  }

  lemma FinishMoves(s: State, c: nat)
    requires Inv(s) && Enabled(s, CloseCallback(c)) && FinishClose(s, c).Ok?
    ensures c in FinishClose(s, c).state.conns &&
      Moves(CloseCallback(c), c, s.conns[c], FinishClose(s, c).state.conns[c])
  {
  }

  lemma FreeMoves(s: State, c: nat)
    requires Inv(s) && Enabled(s, Release(c)) && Free(s, c).Ok?
    ensures c in Free(s, c).state.conns && Moves(Release(c), c, s.conns[c], Free(s, c).state.conns[c])
  {
    FullCourse(s.conns[c], c in s.registry);
  }

  lemma DrainedMoves(s: State, c: nat)
    requires Inv(s) && Enabled(s, Drained(c)) && SetInterest(s, c, s.conns[c].read, false).Ok?
    ensures var t := SetInterest(s, c, s.conns[c].read, false).state;
            c in t.conns && Moves(Drained(c), c, s.conns[c], t.conns[c])
  {
    InterestOwn(s, c, s.conns[c].read, false);
    hide SetInterest;
  }

  lemma StepMoves(s: State, e: Event, c: nat)
    requires Inv(s) && Step(s, e).Ok? && c in s.conns
    ensures c in Step(s, e).state.conns && Moves(e, c, s.conns[c], Step(s, e).state.conns[c])
  {
    StepIsLocal(s, e);
    assert StageOk(s.conns[c], c in s.registry);
    if Touches(s, e, c) {
      UnreportKeepsInv(s, c);
      hide Inv, Deliver, BeginClose, FinishClose, SetInterest, Act, Free, Moves, StageOk;
      match e
      case DeliverHead(l) => DeliverStepMoves(s, l);
      case EndOfFile(_) => CloseMoves(Unreport(s, c), e, c);
      case Drained(_) => DrainedMoves(s, c);
      case User(_, a) => ActMoves(s, c, a);
      case CloseCallback(_) => FinishMoves(s, c);
      case Release(_) => FreeMoves(s, c);
    } else {
      UserTouches(s, e, c);
    }
  }

  /** A step that is not about `c` is no call on it, unless `c` is not yet or no longer the user's. */
  lemma UserTouches(s: State, e: Event, c: nat)
    requires Inv(s) && c in s.conns && !Touches(s, e, c)
    ensures Moves(e, c, s.conns[c], s.conns[c])
  {
    hide Inv, StageOk;
    StageFacts(s, c);
    StageMore(s, c);
  }

  lemma StageMore(s: State, c: nat)
    requires Inv(s) && c in s.conns
    ensures s.conns[c].released ==> |s.conns[c].log| == 5 && s.conns[c].index.New?
    ensures !s.conns[c].index.Added? ==> !s.conns[c].read && !s.conns[c].write
  {
    assert StageOk(s.conns[c], c in s.registry);
  }

  // ---------------------------------------------------------------- careful user code is safe, and nothing less is

  lemma StepKeepsQuiet(s: State, e: Event)
    requires Inv(s) && Quiet(s) && Careful(s, e)
    ensures Step(s, e).Ok? && Inv(Step(s, e).state) && Quiet(Step(s, e).state)
  {
    QuietMeansNoMisstep(s, e);
    StepSucceedsExactly(s, e);
    var t := Step(s, e).state;
    forall c | c in t.conns ensures QuietConn(t, c) {
      if c in s.conns {
        StepKeepsQuietConn(s, e, c);
      } else {
        NewConnIsQuiet(s, e, c);
      }
    }
  }

  lemma QuietMeansNoMisstep(s: State, e: Event)
    requires Inv(s) && Quiet(s)
    ensures !Misstep(s, e)
  {
    if Enabled(s, e) {
      match e
      case DeliverHead(l) =>
        HeadInFlight(s, l);
        assert QuietConn(s, Queue(s, l)[0].conn);
      case EndOfFile(c) => assert QuietConn(s, c);
      case Release(c) =>
        assert QuietConn(s, c);
        FullCourse(s.conns[c], c in s.registry);
      case _ =>
    }
  }

  lemma StepKeepsQuietConn(s: State, e: Event, c: nat)
    requires Inv(s) && c in s.conns && QuietConn(s, c) && Careful(s, e) && Step(s, e).Ok? && Inv(Step(s, e).state)
    ensures c in Step(s, e).state.conns && QuietConn(Step(s, e).state, c)
  {
    var t := Step(s, e).state;
    StepMoves(s, e, c);
    StaysUnreported(s, e, c);
    FullCourse(s.conns[c], c in s.registry);
    assert StageOk(s.conns[c], c in s.registry) && StageOk(t.conns[c], c in t.registry);
    StageOfClosed(s, c);
    StageOfClosed(t, c);
    hide Inv, Step, StageOk;
  }

  /** A connection that does not read enters no active list; one whose end of file is handled leaves it. */
  lemma StaysUnreported(s: State, e: Event, c: nat)
    requires Inv(s) && Step(s, e).Ok? && c in s.conns
    ensures c in Step(s, e).state.reported ==> c in s.reported || s.conns[c].read
    ensures Enabled(s, e) && e == EndOfFile(c) ==> c !in Step(s, e).state.reported
  {
    StepIsLocal(s, e);
    hide Inv, Step;
    assert Enabled(s, e) && e.Poll? && c in e.ready ==> Reportable(s, c, e.loop);
  }

  lemma NewConnIsQuiet(s: State, e: Event, c: nat)
    requires Inv(s) && Step(s, e).Ok? && c !in s.conns && c in Step(s, e).state.conns
    ensures QuietConn(Step(s, e).state, c)
  {
    StepIsLocal(s, e);
    StepSucceedsExactly(s, e);
    var t := Step(s, e).state;
    assert c == s.nextId && StageOk(t.conns[c], c in t.registry);
    hide Step, Inv;
  }

  /** Careful runs fail no assert. */
  lemma {:induction false} CarefulRunsSucceed(s: State, es: seq<Event>)
    requires Inv(s) && Quiet(s) && CarefulRun(s, es)
    ensures Run(s, es).Ok? && Inv(Run(s, es).state) && Quiet(Run(s, es).state)
    decreases |es|
  {
    if es != [] {
      StepKeepsQuiet(s, es[0]);
      hide Inv, Step, Quiet, Careful;
      CarefulRunsSucceed(Step(s, es[0]).state, es[1..]);
    }
  }

  lemma RunOne(s: State, e: Event)
    ensures Run(s, [e]) == Step(s, e)
  {
    hide Step;
    assert [e][1..] == [];
  }

  lemma RunTwo(s: State, e: Event, f: Event)
    ensures Run(s, [e]) == Step(s, e)
    ensures Run(s, [e, f]) == if Step(s, e).Fault? then Step(s, e) else Step(Step(s, e).state, f)
  {
    RunOne(s, e);
    assert [e, f][1..] == [f];
    if Step(s, e).Ok? {
      RunOne(Step(s, e).state, f);
    }
    hide Step;
  }

  lemma {:induction false} NoCallsIsCareful(s: State, es: seq<Event>)
    requires forall k :: 0 <= k < |es| ==> !es[k].User?
    ensures CarefulRun(s, es)
    decreases |es|
  {
    if es != [] && Step(s, es[0]).Ok? {
      assert forall k :: 0 <= k < |es| - 1 ==> es[1..][k] == es[k + 1];
      NoCallsIsCareful(Step(s, es[0]).state, es[1..]);
    }
  }

  lemma {:induction false} RunAppend(s: State, xs: seq<Event>, ys: seq<Event>)
    ensures Run(s, xs + ys) == if Run(s, xs).Fault? then Run(s, xs) else Run(Run(s, xs).state, ys)
    decreases |xs|
  {
    if xs == [] {
      assert xs + ys == ys;
    } else {
      assert (xs + ys)[0] == xs[0] && (xs + ys)[1..] == xs[1..] + ys;
      if Step(s, xs[0]).Ok? {
        RunAppend(Step(s, xs[0]).state, xs[1..], ys);
      }
    }
  }

  /** A closed connection that still reads. */
  predicate Doomed(s: State, c: nat) {
    c in s.conns && s.conns[c].state.Disconnected? && |s.conns[c].log| <= 4 && s.conns[c].read
  }

  lemma DoomStays(s: State, e: Event, c: nat)
    requires Inv(s) && Doomed(s, c) && !e.User? && Step(s, e).Ok?
    ensures Inv(Step(s, e).state) && Doomed(Step(s, e).state, c)
  {
    hide Inv, Step, Misstep;
    StepSucceedsExactly(s, e);
    StepMoves(s, e, c);
    StageFacts(s, c);
    StageFacts(Step(s, e).state, c);
  }

  function Closing(s: State, l: nat): set<nat> {
    set d | d in s.conns && s.conns[d].closing && s.conns[d].loop == l
  }

  function Unhandled(s: State, l: nat): set<nat> {
    set d | d in s.reported && d in s.conns && s.conns[d].loop == l
  }

  /** How far a loop is from its next poll. */
  function Distance(s: State, l: nat): nat {
    if BatchDone(s, l) then 0
    else match TurnOf(s, l) case Handling => |Queue(s, l)| + 1 case Running(left) => left
  }

  lemma NoNewClosing(s: State, e: Event, l: nat)
    requires Inv(s) && Step(s, e).Ok? && (e.CloseCallback? || e.Readable? || e.SwapFunctors? || e.DeliverHead?)
    ensures Closing(Step(s, e).state, l) <= Closing(s, l)
    ensures e.CloseCallback? ==> e.conn !in Closing(Step(s, e).state, l)
    ensures Unhandled(Step(s, e).state, l) <= Unhandled(s, l)
  {
    hide Inv, Step, Touches;
    StepIsLocal(s, e);
    forall d | d in s.conns
      ensures d in Step(s, e).state.conns && Moves(e, d, s.conns[d], Step(s, e).state.conns[d])
    {
      StepMoves(s, e, d);
    }
  }

  /** Each thing a loop does by itself before it polls brings the poll nearer. */
  predicate Nearer(s: State, t: State, l: nat) {
    && Closing(t, l) <= Closing(s, l) && Unhandled(t, l) <= Unhandled(s, l)
    && (Closing(t, l) != Closing(s, l) || Unhandled(t, l) != Unhandled(s, l) || Distance(t, l) < Distance(s, l))
    && (Closing(s, l) != {} || Unhandled(s, l) != {} || Distance(t, l) < Distance(s, l))
  }

  lemma NextOnTheWay(s: State, l: nat) returns (e: Event)
    requires Inv(s) && (Closing(s, l) != {} || Unhandled(s, l) != {} || Distance(s, l) > 0)
    ensures e.CloseCallback? || e.Readable? || e.SwapFunctors? || e.DeliverHead?
    ensures Step(s, e).Ok? ==> Nearer(s, Step(s, e).state, l)
  {
    if Closing(s, l) != {} {
      var d :| d in Closing(s, l);
      e := CloseCallback(d);
    } else if Unhandled(s, l) != {} {
      var d :| d in Unhandled(s, l);
      e := Readable(d);
    } else if TurnOf(s, l).Handling? {
      e := SwapFunctors(l);
    } else {
      e := DeliverHead(l);
    }
    if Step(s, e).Ok? {
      NoNewClosing(s, e, l);
      DistanceShrinks(s, e, l);
    }
  }

  /** Nothing is left to do before the swap or the poll. */
  predicate AtRest(s: State, l: nat) {
    Closing(s, l) == {} && Unhandled(s, l) == {}
  }

  lemma DistanceShrinks(s: State, e: Event, l: nat)
    requires Inv(s) && Step(s, e).Ok?
    ensures e.Readable? && e.conn in Unhandled(s, l) && Closing(s, l) == {} ==> e.conn !in Step(s, e).state.reported
    ensures e == SwapFunctors(l) && TurnOf(s, l).Handling? && AtRest(s, l) ==>
              Distance(Step(s, e).state, l) < Distance(s, l)
    ensures e == DeliverHead(l) && TurnOf(s, l).Running? && Distance(s, l) > 0 && AtRest(s, l) ==>
              Distance(Step(s, e).state, l) < Distance(s, l)
  {
    EmptyMeansDone(s, l);
    if e == DeliverHead(l) && TurnOf(s, l).Running? && Distance(s, l) > 0 && AtRest(s, l) {
      HeadInFlight(s, l);
      TurnAfterDelivery(s, l);
    }
    hide Inv, Deliver, FinishClose, NewConnection, Act, BeginClose, SetInterest, Free;
  }

  lemma EmptyMeansDone(s: State, l: nat)
    ensures Closing(s, l) == {} ==> Settled(s, l)
    ensures Unhandled(s, l) == {} ==> AllHandled(s, l)
  {
    if Closing(s, l) == {} {
      forall c | c in s.conns && s.conns[c].closing ensures s.conns[c].loop != l {
        assert c !in Closing(s, l);
      }
    }
    if Unhandled(s, l) == {} {
      forall c | c in s.reported && c in s.conns ensures s.conns[c].loop != l {
        assert c !in Unhandled(s, l);
      }
    }
  }

  lemma TurnAfterDelivery(s: State, l: nat)
    requires Enabled(s, DeliverHead(l)) && Step(s, DeliverHead(l)).Ok?
    ensures TurnOf(Step(s, DeliverHead(l)).state, l) == Running(TurnOf(s, l).left - 1)
  {
    hide Deliver;
    DeliverIsLocal(SetTurn(s, l, Running(TurnOf(s, l).left - 1)), l);
  }

  /** Such a connection fails without any further call: on the way to its loop's next poll the pending destroy
      may find it reading; if not, the poll reports it, and end of file closes it a second time. */
  lemma {:induction false} DoomedFails(s: State, c: nat) returns (es: seq<Event>)
    requires Inv(s) && Doomed(s, c)
    ensures CarefulRun(s, es) && Run(s, es).Fault?
    decreases |Closing(s, s.conns[c].loop)| + |Unhandled(s, s.conns[c].loop)|, Distance(s, s.conns[c].loop)
  {
    var l := s.conns[c].loop;
    if Closing(s, l) == {} && Unhandled(s, l) == {} && Distance(s, l) == 0 {
      es := [Poll(l, {c}), EndOfFile(c)];
      PolledDoomFails(s, c);
      RunTwo(s, Poll(l, {c}), EndOfFile(c));
      NoCallsIsCareful(s, es);
    } else {
      var e := NextOnTheWay(s, l);
      es := [e];
      if Step(s, e).Ok? {
        DoomStays(s, e, c);
        StepMoves(s, e, c);
        var t := Step(s, e).state;
        NearerDecreases(s, t, l);
        var rest := DoomedFails(t, c);
        es := [e] + rest;
        assert es[1..] == rest;
      } else {
        RunOne(s, e);
      }
      hide Inv, Step, Enabled;
    }
  }

  lemma NearerDecreases(s: State, t: State, l: nat)
    requires Nearer(s, t, l)
    ensures |Closing(t, l)| + |Unhandled(t, l)| < |Closing(s, l)| + |Unhandled(s, l)|
            || (|Closing(t, l)| + |Unhandled(t, l)| == |Closing(s, l)| + |Unhandled(s, l)| &&
              Distance(t, l) < Distance(s, l))
  {
    SubsetSize(Closing(t, l), Closing(s, l));
    SubsetSize(Unhandled(t, l), Unhandled(s, l));
  }

  lemma SubsetSize(a: set<nat>, b: set<nat>)
    requires a <= b
    ensures |a| <= |b| && (a != b ==> |a| < |b|)
  {
    assert b == a + (b - a);
    assert |b| == |a| + |b - a|;
  }

  lemma PolledDoomFails(s: State, c: nat)
    requires Inv(s) && Doomed(s, c) && Closing(s, s.conns[c].loop) == {} && Unhandled(s, s.conns[c].loop) == {}
    requires Distance(s, s.conns[c].loop) == 0
    ensures var r := Step(s, Poll(s.conns[c].loop, {c}));
            r.Ok? && Step(r.state, EndOfFile(c)) == Fault(StateIsOpenAtClose)
  {
    var l := s.conns[c].loop;
    EmptyMeansDone(s, l);
    StageFacts(s, c);
    assert Reportable(s, c, l) && BatchDone(s, l);
    var t := Step(s, Poll(l, {c})).state;
    assert Settled(t, l);
    SecondCloseFails(t, c);
  }

  /** A call can be made, in a quiet state, with no later failure unless later calls cause one, exactly if it
      is careful. */
  lemma CarefulExactly(s: State, c: nat, a: Action)
    requires Inv(s) && Quiet(s) && Enabled(s, User(c, a))
    ensures Step(s, User(c, a)).Ok?
    ensures var t := Step(s, User(c, a)).state;
            (forall es :: CarefulRun(t, es) ==> Run(t, es).Ok?) <==> Careful(s, User(c, a))
  {
    var e := User(c, a);
    StepSucceedsExactly(s, e);
    var t := Step(s, e).state;
    if Careful(s, e) {
      StepKeepsQuiet(s, e);
      forall es | CarefulRun(t, es) ensures Run(t, es).Ok? {
        CarefulRunsSucceed(t, es);
      }
    } else {
      var es := CarelessRun(s, c, a);
      assert CarefulRun(t, es) && !Run(t, es).Ok?;
    }
  }

  lemma CarelessRun(s: State, c: nat, a: Action) returns (es: seq<Event>)
    requires Inv(s) && Quiet(s) && Enabled(s, User(c, a)) && !Careful(s, User(c, a))
    ensures Step(s, User(c, a)).Ok?
    ensures CarefulRun(Step(s, User(c, a)).state, es) && Run(Step(s, User(c, a)).state, es).Fault?
  {
    hide Inv, Step, Run, CarefulRun, StageOk;
    var e := User(c, a);
    StepSucceedsExactly(s, e);
    var t := Step(s, e).state;
    if a.ForceClose? {
      es := StaleEndOfFile(s, c);
      es := es + [EndOfFile(c)];
      NoCallsIsCareful(t, es);
    } else {
      assert QuietConn(s, c);
      StepMoves(s, e, c);
      StageFacts(s, c);
      StageFacts(t, c);
      FullCourse(s.conns[c], c in s.registry);
      if |s.conns[c].log| <= 4 {
        es := DoomedFails(t, c);
      } else {
        es := BroughtBackFails(t, c);
      }
    }
  }

  /** A destroyed connection whose channel is back in a loop fails when the last reference goes. */
  lemma BroughtBackFails(s: State, c: nat) returns (es: seq<Event>)
    requires Inv(s) && c in s.conns && |s.conns[c].log| == 5 && !s.conns[c].index.New?
    ensures CarefulRun(s, es) && Run(s, es).Fault?
  {
    es := [Release(c)];
    assert StageOk(s.conns[c], c in s.registry);
    FullCourse(s.conns[c], c in s.registry);
    StepSucceedsExactly(s, Release(c));
    RunOne(s, Release(c));
    NoCallsIsCareful(s, es);
  }

  /** A connection closed by another handler of the same poll is closed a second time: once the close
      callbacks are over, its own entry of the active list says end of file, and the assert on the state
      fails. */
  lemma StaleEndOfFile(s: State, c: nat) returns (es: seq<Event>)
    requires Inv(s) && Enabled(s, User(c, ForceClose)) && !s.conns[c].state.Disconnected? && c in s.reported
    ensures forall k :: 0 <= k < |es| ==> es[k].CloseCallback?
    ensures Step(s, User(c, ForceClose)).Ok?
    ensures var t := Step(s, User(c, ForceClose)).state;
            Run(t, es).Ok? && Run(t, es + [EndOfFile(c)]) == Fault(StateIsOpenAtClose)
  {
    ForceCloses(s, c);
    es := FinishCloses(Step(s, User(c, ForceClose)).state, c);
  }

  /** The close callbacks under way on the loop of a reported, closed connection. */
  lemma {:induction false} FinishCloses(s: State, c: nat) returns (es: seq<Event>)
    requires Inv(s) && c in s.conns && c in s.reported && s.conns[c].state.Disconnected?
    ensures forall k :: 0 <= k < |es| ==> es[k].CloseCallback?
    ensures Run(s, es).Ok? && Run(s, es + [EndOfFile(c)]) == Fault(StateIsOpenAtClose)
    decreases |Closing(s, s.conns[c].loop)|
  {
    var l := s.conns[c].loop;
    if Closing(s, l) == {} {
      es := [];
      EmptyMeansDone(s, l);
      SecondCloseFails(s, c);
      RunOne(s, EndOfFile(c));
      assert [] + [EndOfFile(c)] == [EndOfFile(c)];
    } else {
      hide Inv, Step;
      var d :| d in Closing(s, l);
      var t := CallbackDone(s, c, d);
      var rest := FinishCloses(t, c);
      es := [CloseCallback(d)] + rest;
      assert es[1..] == rest && (es + [EndOfFile(c)])[1..] == rest + [EndOfFile(c)];
    }
  }

  lemma CallbackDone(s: State, c: nat, d: nat) returns (t: State)
    requires Inv(s) && c in s.conns && c in s.reported && s.conns[c].state.Disconnected?
    requires d in Closing(s, s.conns[c].loop)
    ensures Step(s, CloseCallback(d)) == Ok(t) && Inv(t)
    ensures c in t.conns && c in t.reported && t.conns[c].state.Disconnected? && t.conns[c].loop == s.conns[c].loop
    ensures |Closing(t, s.conns[c].loop)| < |Closing(s, s.conns[c].loop)|
  {
    var e := CloseCallback(d);
    StepSucceedsExactly(s, e);
    t := Step(s, e).state;
    hide Inv, Step;
    StepMoves(s, e, c);
    StepIsLocal(s, e);
    StageFacts(s, c);
    StageFacts(t, c);
    NoNewClosing(s, e, s.conns[c].loop);
    SubsetSize(Closing(t, s.conns[c].loop), Closing(s, s.conns[c].loop));
  }

  lemma ForceCloses(s: State, c: nat)
    requires Inv(s) && Enabled(s, User(c, ForceClose)) && !s.conns[c].state.Disconnected? && c in s.reported
    ensures Step(s, User(c, ForceClose)).Ok?
    ensures var t := Step(s, User(c, ForceClose)).state;
            Inv(t) && c in t.conns && c in t.reported && t.conns[c].state.Disconnected?
  {
    StageOfOpen(s, c);
    BeginCloseKeepsInv(s, c);
    StageOfClosed(BeginClose(s, c).state, c);
    hide BeginClose, Inv, StageOk, OnlyDiffersAt;
    ForceCloseStep(s, c);
  }

  lemma ForceCloseStep(s: State, c: nat)
    requires Enabled(s, User(c, ForceClose)) && !s.conns[c].state.Disconnected?
    ensures Step(s, User(c, ForceClose)) == BeginClose(s, c)
  {
    hide BeginClose;
  }

  lemma StageOfOpen(s: State, c: nat)
    requires Inv(s) && c in s.conns
    ensures !s.conns[c].state.Connecting? && !s.conns[c].state.Disconnected? <==> |s.conns[c].log| == 2
  {
    assert StageOk(s.conns[c], c in s.registry);
  }

  lemma StageOfClosed(s: State, c: nat)
    requires Inv(s) && c in s.conns
    ensures s.conns[c].state.Disconnected? <==> |s.conns[c].log| >= 3
  {
    assert StageOk(s.conns[c], c in s.registry);
  }

  /** Handling end of file on a closed connection fails the assert on the state. */
  lemma SecondCloseFails(s: State, c: nat)
    requires c in s.reported && c in s.conns && s.conns[c].state.Disconnected? && Settled(s, s.conns[c].loop)
    ensures Step(s, EndOfFile(c)) == Fault(StateIsOpenAtClose)
  {
  }

  // ---------------------------------------------------------------- startRead and stopRead after the close

  /** The last of the two calls on `c` is `startRead`. */
  predicate LastIsStart(es: seq<Event>, c: nat) {
    es != [] &&
      var e := es[|es| - 1];
      e == User(c, StartRead) || (e != User(c, StopRead) && LastIsStart(es[..|es| - 1], c))
  }

  lemma RunSnoc(s: State, es: seq<Event>)
    requires es != []
    ensures var r := Run(s, es[..|es| - 1]); Run(s, es) == if r.Fault? then r else Step(r.state, es[|es| - 1])
  {
    var e := es[|es| - 1];
    assert es == es[..|es| - 1] + [e];
    RunAppend(s, es[..|es| - 1], [e]);
    var r := Run(s, es[..|es| - 1]);
    if r.Ok? {
      RunOne(r.state, e);
    }
  }

  /** Between the close and the destroy a connection reads exactly if the last of the two calls since the close is
      `startRead`. */
  lemma {:induction false} ReadSinceClose(s: State, es: seq<Event>, c: nat)
    requires Inv(s) && c in s.conns && s.conns[c].state.Disconnected? && !s.conns[c].read && Run(s, es).Ok?
    ensures c in Run(s, es).state.conns
    ensures var k := Run(s, es).state.conns[c];
            && k.state.Disconnected?
            && (|k.log| <= 4 ==> (k.read <==> LastIsStart(es, c)))
    decreases |es|
  {
    RunSucceedsExactly(s, es);
    assert StageOk(s.conns[c], c in s.registry);
    if es != [] {
      var before := es[..|es| - 1];
      RunSnoc(s, es);
      ReadSinceClose(s, before, c);
      RunSucceedsExactly(s, before);
      var g := Run(s, before).state;
      StepMoves(g, es[|es| - 1], c);
      var f := Run(s, es).state;
      assert StageOk(g.conns[c], c in g.registry) && StageOk(f.conns[c], c in f.registry);
      hide Inv, Step, Run, StageOk;
    }
  }

  /** From a close on, the destroy message, when it is delivered, succeeds exactly if the last of the two
      calls made since is not `startRead`. */
  lemma DestroyDecided(s: State, close: Event, es: seq<Event>, c: nat, l: nat)
    requires Inv(s) && c in s.conns && |s.conns[c].log| == 2 && Enabled(s, close)
    requires close == EndOfFile(c) || close == User(c, ForceClose)
    requires Step(s, close).Ok? && Run(Step(s, close).state, es).Ok?
    requires var f := Run(Step(s, close).state, es).state;
             Enabled(f, DeliverHead(l)) && Queue(f, l)[0] == Destroy(c)
    ensures Step(Run(Step(s, close).state, es).state, DeliverHead(l)).Ok? <==> !LastIsStart(es, c)
  {
    StepSucceedsExactly(s, close);
    ClosedByThen(s, close, c);
    var t := Step(s, close).state;
    ReadSinceClose(t, es, c);
    RunSucceedsExactly(t, es);
    var f := Run(t, es).state;
    HeadInFlight(f, l);
    StepSucceedsExactly(f, DeliverHead(l));
    hide Inv, Step, Run;
  }

  lemma ClosedByThen(s: State, close: Event, c: nat)
    requires Inv(s) && c in s.conns && |s.conns[c].log| == 2 && Enabled(s, close)
    requires close == EndOfFile(c) || close == User(c, ForceClose)
    ensures Step(s, close).Ok? && c in Step(s, close).state.conns
    ensures var k := Step(s, close).state.conns[c]; k.state.Disconnected? && !k.read
  {
    hide Inv, Step, BeginClose;
    StageFacts(s, c);
    UnreportKeepsInv(s, c);
    var u := if close.EndOfFile? then Unreport(s, c) else s;
    CloseStep(s, close, c);
    BeginCloseKeepsInv(u, c);
    StageFacts(BeginClose(u, c).state, c);
  }

  lemma CloseStep(s: State, close: Event, c: nat)
    requires c in s.conns && !s.conns[c].state.Disconnected? && Enabled(s, close)
    requires close == EndOfFile(c) || close == User(c, ForceClose)
    ensures Step(s, close) == BeginClose(if close.EndOfFile? then Unreport(s, c) else s, c)
  {
    hide BeginClose;
    if close != EndOfFile(c) {
      ForceCloseStep(s, c);
    }
  }

  /** Right before the destroy one call decides: of all of them only `startRead` makes it fail, and it does so
      always. */
  lemma StartReadAfterCloseFails(s: State, c: nat, a: Action)
    requires Inv(s) && c in s.conns && |s.conns[c].log| == 4 && !s.conns[c].read
    ensures Act(s, c, a).Ok? && c in Act(s, c, a).state.conns
    ensures a.StartRead? ==> ConnectionDestroy(Act(s, c, a).state, c) == Fault(NoInterestAtRemove)
    ensures ConnectionDestroy(Act(s, c, a).state, c).Ok? <==> !a.StartRead?
  {
    assert StageOk(s.conns[c], c in s.registry);
    ActKeepsInv(s, c, a);
    ActMoves(s, c, a);
    var t := Act(s, c, a).state;
    ActIsClosed(s, c, a);
    StagesGiveMirror(t);
    if !a.StartRead? {
      DestroyShape(t, c);
    }
    hide Inv, Act;
  }

  lemma ActIsClosed(s: State, c: nat, a: Action)
    requires Inv(s) && c in s.conns && |s.conns[c].log| == 4 && Act(s, c, a).Ok? && Inv(Act(s, c, a).state)
    requires c in Act(s, c, a).state.conns
    ensures var t := Act(s, c, a).state; t.conns[c].log == s.conns[c].log && StageOk(t.conns[c], false)
  {
    assert StageOk(s.conns[c], c in s.registry);
    var k := s.conns[c];
    var t := Act(s, c, a).state;
    assert StageOk(t.conns[c], c in t.registry);
    hide SetInterest, BeginClose, Inv;
    match a
    case StartRead => InterestOwn(Set(s, c, k.(reading := true)), c, true, k.write);
    case StopRead => if k.reading ||
      OnlyReading(k) { InterestOwn(Set(s, c, k.(reading := false)), c, false, k.write); }
    case _ =>
  }

  /** No call on a destroyed connection gave its channel back. */
  predicate NothingBrings(es: seq<Event>, c: nat, reading: bool) {
    forall k :: 0 <= k < |es| ==> !Brings(es[k], c, reading)
  }

  /** From a destroy on, the channel is in no poller, and the connection can be dropped, exactly as long as
      nobody has called `startRead`, or `stopRead` while `isReading` said yes. */
  lemma {:induction false} BackAfterDestroy(s: State, es: seq<Event>, c: nat)
    requires Inv(s) && c in s.conns && |s.conns[c].log| == 5 && s.conns[c].index.New? && Run(s, es).Ok?
    ensures c in Run(s, es).state.conns
    ensures var k := Run(s, es).state.conns[c];
            && |k.log| == 5
            && (!k.released ==>
                 (k.index.New? <==> NothingBrings(es, c, s.conns[c].reading))
                 && (Registered(Run(s, es).state, c) <==> !k.index.New?)
                 && (Step(Run(s, es).state, Release(c)).Ok? <==> NothingBrings(es, c, s.conns[c].reading))
                 && (k.index.New? ==> k.reading == s.conns[c].reading))
    decreases |es|
  {
    RunSucceedsExactly(s, es);
    var f := Run(s, es).state;
    if es != [] {
      var before := es[..|es| - 1];
      var e := es[|es| - 1];
      RunSnoc(s, es);
      BackAfterDestroy(s, before, c);
      RunSucceedsExactly(s, before);
      StepMoves(Run(s, before).state, e, c);
      LogOfFive(f, c);
      assert NothingBrings(es, c, s.conns[c].reading) <==>
        NothingBrings(before, c, s.conns[c].reading) && !Brings(e, c, s.conns[c].reading) by {
        NothingBringsSnoc(es, c, s.conns[c].reading);
      }
    }
    if !f.conns[c].released {
      AtTheEnd(f, c);
    }
  }

  lemma LogOfFive(s: State, c: nat)
    requires Inv(s) && c in s.conns
    ensures |s.conns[c].log| <= 5
  {
    assert StageOk(s.conns[c], c in s.registry);
  }

  lemma NothingBringsSnoc(es: seq<Event>, c: nat, reading: bool)
    requires es != []
    ensures NothingBrings(es, c, reading) <==>
            NothingBrings(es[..|es| - 1], c, reading) && !Brings(es[|es| - 1], c, reading)
  {
    if NothingBrings(es[..|es| - 1], c, reading) && !Brings(es[|es| - 1], c, reading) {
      assert forall k :: 0 <= k < |es| - 1 ==> es[k] == es[..|es| - 1][k];
    }
    if NothingBrings(es, c, reading) {
      assert forall k :: 0 <= k < |es| - 1 ==> es[..|es| - 1][k] == es[k];
    }
  }

  lemma AtTheEnd(s: State, c: nat)
    requires Inv(s) && c in s.conns && |s.conns[c].log| == 5 && !s.conns[c].released
    ensures Registered(s, c) <==> !s.conns[c].index.New?
    ensures Step(s, Release(c)).Ok? <==> s.conns[c].index.New?
  {
    assert StageOk(s.conns[c], c in s.registry);
    FullCourse(s.conns[c], c in s.registry);
    StepSucceedsExactly(s, Release(c));
    StagesGiveMirror(s);
    if s.conns[c].index.New? {
      NoCollision(s, c);
    } else {
      KnownIsRegistered(s, c);
    }
  }

  /** One call on a destroyed connection: `stopRead` gives the dead channel back to its poller exactly if
      `isReading` says yes and does nothing otherwise; `startRead` always does; the others never. */
  lemma StopReadAfterDestroyReturns(s: State, c: nat)
    requires Inv(s) && c in s.conns && |s.conns[c].log| == 5 && s.conns[c].index.New? && !s.conns[c].released
    ensures forall a: Action :: Act(s, c, a).Ok? && c in Act(s, c, a).state.conns
    ensures Registered(Act(s, c, StopRead).state, c) <==> s.conns[c].reading
    ensures !s.conns[c].reading ==> Act(s, c, StopRead).state == s
    ensures Registered(Act(s, c, StartRead).state, c)
    ensures forall a: Action :: !a.StartRead? && !a.StopRead? ==> Act(s, c, a).state == s
  {
    assert StageOk(s.conns[c], c in s.registry);
    forall a: Action ensures Act(s, c, a).Ok? && c in Act(s, c, a).state.conns {
      ActKeepsInv(s, c, a);
      ActMoves(s, c, a);
    }
    NoCollision(s, c);
    BackInPoller(s, c, StartRead);
    BackInPoller(s, c, StopRead);
  }

  lemma BackInPoller(s: State, c: nat, a: Action)
    requires Inv(s) && c in s.conns && |s.conns[c].log| == 5 && s.conns[c].index.New? && !s.conns[c].released
    requires a.StartRead? || a.StopRead?
    ensures c in Act(s, c, a).state.conns
    ensures Registered(Act(s, c, a).state, c) <==> Brings(User(c, a), c, s.conns[c].reading)
  {
    ActKeepsInv(s, c, a);
    ActMoves(s, c, a);
    var t := Act(s, c, a).state;
    assert StageOk(s.conns[c], c in s.registry) && StageOk(t.conns[c], c in t.registry);
    assert !t.conns[c].released;
    AtTheEnd(t, c);
  }

  // ---------------------------------------------------------------- one life each

  predicate Forward(s: State, t: State) {
    s.conns.Keys <= t.conns.Keys && forall c :: c in s.conns ==> s.conns[c].log <= t.conns[c].log
  }

  lemma StepMovesForward(s: State, e: Event)
    requires Inv(s) && Step(s, e).Ok?
    ensures Forward(s, Step(s, e).state)
  {
    forall c | c in s.conns ensures c in Step(s, e).state.conns && s.conns[c].log <= Step(s, e).state.conns[c].log {
      StepMoves(s, e, c);
    }
  }

  /** Lives only move forward, and a connection is never forgotten: a milestone passed is never passed again. */
  lemma {:induction false} RunMovesForward(s: State, es: seq<Event>)
    requires Inv(s) && Run(s, es).Ok?
    ensures Forward(s, Run(s, es).state)
    decreases |es|
  {
    if es != [] {
      StepSucceedsExactly(s, es[0]);
      StepMovesForward(s, es[0]);
      hide Step, Inv;
      RunMovesForward(Step(s, es[0]).state, es[1..]);
    }
  }

  /** Of the three lifecycle messages of a connection exactly the awaited one is queued, once, on the right loop. */
  ghost predicate OneMessage(s: State, c: nat)
    requires c in s.conns
  {
    var k := s.conns[c];
    && (forall l :: Count(s, l, Establish(c)) == if Established !in k.log && l == k.loop then 1 else 0)
    && (forall l :: Count(s, l, Remove(c)) ==
         if Closed in k.log && !k.closing && Erased !in k.log && l == MAIN then 1 else 0)
    && (forall l :: Count(s, l, Destroy(c)) == if Erased in k.log && Destroyed !in k.log && l == k.loop then 1 else 0)
  }

  /** In every reachable state each connection has passed an initial part of accept, establish, close, erase,
      destroy, each once and in that order; it is in the map until erased, and in its poller from establish to
      destroy and not before, nor once the last reference is gone; its awaited message is queued. */
  lemma OneLifeEach(es: seq<Event>, c: nat)
    requires Run(Init(), es).Ok? && c in Run(Init(), es).state.conns
    ensures var s := Run(Init(), es).state;
            var k := s.conns[c];
            && k.log <= [Accepted, Established, Closed, Erased, Destroyed]
            && (c in s.registry <==> Erased !in k.log)
            && (Established in k.log && Destroyed !in k.log ==> Registered(s, c))
            && (Established !in k.log || k.released ==> !Registered(s, c))
            && OneMessage(s, c)
  {
    InitInv();
    RunSucceedsExactly(Init(), es);
    InvGivesLife(Run(Init(), es).state, c);
  }

  /** With careful user code the channel of a destroyed connection never comes back: it is in its poller from
      establish to destroy and at no other time, and a closed connection reads nothing. */
  lemma CarefulLife(es: seq<Event>, c: nat)
    requires CarefulRun(Init(), es)
    ensures Run(Init(), es).Ok?
    ensures var s := Run(Init(), es).state;
            c in s.conns ==>
              && (Registered(s, c) <==> Established in s.conns[c].log && Destroyed !in s.conns[c].log)
              && (Closed in s.conns[c].log ==> !s.conns[c].read)
  {
    InitInv();
    CarefulRunsSucceed(Init(), es);
    var s := Run(Init(), es).state;
    if c in s.conns {
      assert QuietConn(s, c);
      InvGivesLife(s, c);
      StageByMilestones(s.conns[c], c in s.registry);
      StagesGiveMirror(s);
      NewIsUnregistered(s, c);
    }
  }

  lemma NewIsUnregistered(s: State, c: nat)
    requires Inv(s) && c in s.conns
    ensures Registered(s, c) <==> !s.conns[c].index.New?
  {
    if !s.conns[c].index.New? {
      assert Registered(s, c);
    }
  }

  lemma InvGivesLife(s: State, c: nat)
    requires Inv(s) && c in s.conns
    ensures var k := s.conns[c];
            && k.log <= [Accepted, Established, Closed, Erased, Destroyed]
            && (c in s.registry <==> Erased !in k.log)
            && (Established in k.log && Destroyed !in k.log ==> Registered(s, c))
            && (Established !in k.log || k.released ==> !Registered(s, c))
            && (k.state.Disconnected? <==> Closed in k.log)
            && OneMessage(s, c)
  {
    StageByMilestones(s.conns[c], c in s.registry);
    NewIsUnregistered(s, c);
    MessagesByMilestones(s, c);
    hide Registered, OneMessage;
  }

  lemma MessagesByMilestones(s: State, c: nat)
    requires Inv(s) && c in s.conns
    ensures OneMessage(s, c)
  {
    StageByMilestones(s.conns[c], c in s.registry);
    assert forall l, m :: Count(s, l, m) == if InFlight(s, l, m) then 1 else 0;
  }

  lemma StageByMilestones(k: Conn, registered: bool)
    requires StageOk(k, registered)
    ensures k.log <= Course()
    ensures (Established in k.log <==> |k.log| >= 2) && (Closed in k.log <==> |k.log| >= 3)
    ensures (Erased in k.log <==> |k.log| >= 4) && (Destroyed in k.log <==> |k.log| >= 5)
  {
    var w := Course();
    assert w[1] == Established && w[2] == Closed && w[3] == Erased && w[4] == Destroyed;
    assert forall i :: 0 <= i < |k.log| ==> k.log[i] == w[i];
    assert |k.log| >= 2 ==> k.log[1] in k.log;
    assert |k.log| >= 3 ==> k.log[2] in k.log;
    assert |k.log| >= 4 ==> k.log[3] in k.log;
    assert |k.log| >= 5 ==> k.log[4] in k.log;
  }

  // ---------------------------------------------------------------- what a connection asks its poller for

  /** `stopRead` on an open connection leaves it reading if and only if it reads, wants to write too, and
      `startRead` has not been the last of the two calls before. */
  lemma StopReadLostExactly(s: State, c: nat)
    requires Inv(s) && c in s.conns && |s.conns[c].log| == 2
    ensures Step(s, User(c, StopRead)).Ok? && c in Step(s, User(c, StopRead)).state.conns
    ensures Step(s, User(c, StopRead)).state.conns[c].read <==>
            s.conns[c].read && s.conns[c].write && !s.conns[c].reading
    ensures !Step(s, User(c, StopRead)).state.conns[c].reading
  {
    var e := User(c, StopRead);
    StageFacts(s, c);
    StepSucceedsExactly(s, e);
    StepMoves(s, e, c);
    OpenStays(s, c);
    StageFacts(s, c);
    hide Inv, Step;
  }

  lemma OpenStays(s: State, c: nat)
    requires Inv(s) && c in s.conns && |s.conns[c].log| == 2 && Step(s, User(c, StopRead)).Ok?
    ensures c in Step(s, User(c, StopRead)).state.conns && |Step(s, User(c, StopRead)).state.conns[c].log| == 2
  {
    StageFacts(s, c);
    var k := s.conns[c];
    hide Inv, SetInterest;
    if k.reading || OnlyReading(k) {
      InterestOwn(Set(s, c, k.(reading := false)), c, false, k.write);
    }
  }

  /** Whether a run of calls leaves the connection reading, if it read before exactly if `before`. */
  predicate ReadsAfter(s: State, es: seq<Event>, c: nat, before: bool)
    decreases |es|
  {
    if es == [] || c !in s.conns || Step(s, es[0]).Fault? then before
    else
      var k := s.conns[c];
      var now :=
        if es[0] == User(c, StartRead) then true
        else if es[0] == User(c, StopRead) && (k.reading || !k.write) then false
        else before;
      ReadsAfter(Step(s, es[0]).state, es[1..], c, now)
  }

  /** While a connection is open it reads exactly if the last effective of its calls of `startRead` and
      `stopRead` says so. */
  lemma {:induction false} ReadsWhileOpen(s: State, es: seq<Event>, c: nat)
    requires Inv(s) && c in s.conns && |s.conns[c].log| == 2 && Run(s, es).Ok?
    ensures c in Run(s, es).state.conns && |Run(s, es).state.conns[c].log| >= 2
    ensures var k := Run(s, es).state.conns[c];
            |k.log| == 2 ==> (k.read <==> ReadsAfter(s, es, c, s.conns[c].read))
    decreases |es|
  {
    if es != [] {
      hide Inv, Step;
      StepSucceedsExactly(s, es[0]);
      StepMoves(s, es[0], c);
      var t := Step(s, es[0]).state;
      RunMovesForward(t, es[1..]);
      if |t.conns[c].log| == 2 {
        ReadsWhileOpen(t, es[1..], c);
      }
    }
  }

  /** Delivering the establish message makes the connection connected, reading, and known to its loop's poller. */
  lemma EstablishReads(s: State, l: nat)
    requires Inv(s) && Enabled(s, DeliverHead(l)) && Queue(s, l)[0].Establish?
    ensures Step(s, DeliverHead(l)).Ok?
    ensures var c := Queue(s, l)[0].conn;
            var t := Step(s, DeliverHead(l)).state;
            && c in t.conns && t.conns[c].log == [Accepted, Established]
            && t.conns[c].state == Connected && t.conns[c].read && !t.conns[c].write
            && (t.conns[c].loop, t.conns[c].fd) in t.pollers && t.pollers[(t.conns[c].loop, t.conns[c].fd)] == c
  {
    var c := Queue(s, l)[0].conn;
    HeadInFlight(s, l);
    StepSucceedsExactly(s, DeliverHead(l));
    StepMoves(s, DeliverHead(l), c);
    DeliveredEstablish(s, l);
    var t := Step(s, DeliverHead(l)).state;
    StageFacts(t, c);
    StagesGiveMirror(t);
    KnownIsRegistered(t, c);
    assert Course()[..2] == [Accepted, Established];
  }

  lemma DeliveredEstablish(s: State, l: nat)
    requires Inv(s) && Enabled(s, DeliverHead(l)) && Queue(s, l)[0].Establish?
    requires Step(s, DeliverHead(l)).Ok?
    ensures var c := Queue(s, l)[0].conn;
            c in Step(s, DeliverHead(l)).state.conns && |Step(s, DeliverHead(l)).state.conns[c].log| == 2
  {
    hide SetInterest;
    HeadInFlight(s, l);
    var u := SetTurn(s, l, Running(TurnOf(s, l).left - 1));
    assert Queue(u, l) == Queue(s, l);
    var p := Pop(u, l);
    var c := Queue(s, l)[0].conn;
    var q := Mark(Set(p, c, p.conns[c].(state := Connected)), c, Established);
    InterestOwn(q, c, true, q.conns[c].write);
  }

  /** Accepting makes one connection, under a new name, for the descriptor and on the loop given: connected
      and reading at once on the main loop, and otherwise waiting for its establish message. */
  lemma AcceptMakes(s: State, fd: nat, loop: nat)
    requires Inv(s) && fd !in s.open
    ensures Step(s, Accept(fd, loop)).Ok?
    ensures var t := Step(s, Accept(fd, loop)).state;
            && s.nextId !in s.conns && t.conns.Keys == s.conns.Keys + {s.nextId}
            && t.registry == s.registry + {s.nextId} && t.open == s.open + {fd}
            && var k := t.conns[s.nextId];
               && k.fd == fd && k.loop == loop && !k.reading && !k.write
               && (loop == MAIN ==> k.state == Connected && k.read && t.queues == s.queues)
               && (loop != MAIN ==> k.state == Connecting && !k.read)
               && (loop != MAIN ==> Queue(t, loop) == Queue(s, loop) + [Establish(s.nextId)])
  {
    hide Inv, SetInterest;
    AcceptKeepsInv(s, fd, loop);
    NewNameIsFree(s);
    var p := Accepting(s, fd, loop);
    if loop == MAIN {
      var q := Mark(Set(p, s.nextId, p.conns[s.nextId].(state := Connected)), s.nextId, Established);
      InterestOwn(q, s.nextId, true, false);
      EstablishIsLocal(p, s.nextId);
      AcceptedRegistry(q, s.nextId);
    }
  }

  lemma AcceptedRegistry(s: State, c: nat)
    requires c in s.conns && SetInterest(s, c, true, false).Ok?
    ensures SetInterest(s, c, true, false).state.registry == s.registry
    ensures SetInterest(s, c, true, false).state.open == s.open
  {
  }

  /** When the last reference goes the descriptor is free for a new connection. */
  lemma ReleaseFrees(s: State, c: nat)
    requires Inv(s) && Enabled(s, Release(c)) && Step(s, Release(c)).Ok?
    ensures var t := Step(s, Release(c)).state;
            t.open == s.open - {s.conns[c].fd} && c in t.conns && t.conns[c] == s.conns[c].(released := true)
  {
  }
}
