/** The life of a connection across the main loop and the I/O loops: net/TcpServerff.cpp and the connection
    state machine of net/TcpConnectionff.cpp, over the channel bookkeeping of net/Pollerff.cpp.

    `runInLoop` and `queueInLoop` become one FIFO message queue per loop.  Every `assert` of the code on this
    path is a possible outcome of an operation, so that "no run fails an assert" is a statement and not an
    assumption. */
module Lifecycle {
  import opened Common

  /** The loop of the server; connections live on it too when there is no I/O thread. */
  const MAIN: nat := 0

  datatype Milestone = Accepted | Established | Closed | Erased | Destroyed

  /** `read` and `write` are the interest bits; `closing`: inside `handleClose`, before its close callback;
      `released`: the last reference is gone and the descriptor closed. */
  datatype Conn = Conn(
    fd: nat, loop: nat, state: ConnState, read: bool, write: bool, reading: bool, index: Index,
    log: seq<Milestone>, closing: bool, released: bool)

  datatype Message = Establish(conn: nat) | Remove(conn: nat) | Destroy(conn: nat)

  /** What a loop is doing: handling what its last poll reported, or running the functors it swapped out, so
      many left. */
  datatype Turn = Handling | Running(left: nat)

  datatype State = State(
    conns: map<nat, Conn>,                 // every connection object ever made, by its number
    nextId: nat,
    registry: set<nat>,                    // TcpServerff::connections_
    queues: map<nat, seq<Message>>,        // pending functors of each loop
    pollers: map<(nat, nat), nat>,         // (loop, fd) -> connection: Pollerff::channels_ of every loop
    open: set<nat>,                        // descriptors the kernel considers in use
    reported: set<nat>,                    // in the active list of their loop's last poll, not yet handled
    turns: map<nat, Turn>)                 // of each loop

  /** The asserts on the way. */
  datatype Assertion =
    | EraseCountIsOne | StateIsConnecting | StateIsOpenAtClose | NoInterestAtRemove | FdNotInPoller | ChannelInPoller
    | StateIsClosedAtEnd | OutOfLoopAtEnd

  datatype Outcome = Ok(state: State) | Fault(assertion: Assertion)

  function Queue(s: State, l: nat): seq<Message> {
    if l in s.queues then s.queues[l] else []
  }

  function Post(s: State, l: nat, m: Message): State {
    s.(queues := s.queues[l := Queue(s, l) + [m]])
  }

  function Set(s: State, c: nat, k: Conn): State {
    s.(conns := s.conns[c := k])
  }

  function Mark(s: State, c: nat, m: Milestone): State
    requires c in s.conns
  {
    Set(s, c, s.conns[c].(log := s.conns[c].log + [m]))
  }

  // ---------------------------------------------------------------- channel bookkeeping

  predicate Registered(s: State, c: nat)
    requires c in s.conns
  {
    var key := (s.conns[c].loop, s.conns[c].fd);
    key in s.pollers && s.pollers[key] == c
  }

  /** `Channelff::update`, that is `Pollerff::updateChannel`, after the interest bits became `read` and `write`. */
  function SetInterest(s: State, c: nat, read: bool, write: bool): Outcome
    requires c in s.conns
  {
    var k := s.conns[c].(read := read, write := write);
    match k.index
    case New =>
      if (k.loop, k.fd) in s.pollers then Fault(FdNotInPoller)
      else Ok(Set(s, c, k.(index := Added)).(pollers := s.pollers[(k.loop, k.fd) := c]))
    case Deleted =>
      if !Registered(s, c) then Fault(ChannelInPoller) else Ok(Set(s, c, k.(index := Added)))
    case Added =>
      if !Registered(s, c) then Fault(ChannelInPoller)
      else Ok(Set(s, c, k.(index := if read || write then Added else Deleted)))
  }

  /** `Channelff::remove`, that is `Pollerff::removeChannel`. */
  function RemoveChannel(s: State, c: nat): Outcome
    requires c in s.conns
  {
    var k := s.conns[c];
    if k.read || k.write then Fault(NoInterestAtRemove)
    else if !Registered(s, c) || k.index.New? then Fault(ChannelInPoller)
    else Ok(Set(s, c, k.(index := New)).(pollers := s.pollers - {(k.loop, k.fd)}))
  }

  // ---------------------------------------------------------------- the operations

  /** `connectionEstablished`, up to the user's callback. */
  function ConnectionEstablished(s: State, c: nat): Outcome
    requires c in s.conns
  {
    if !s.conns[c].state.Connecting? then Fault(StateIsConnecting)
    else
      var t := Mark(Set(s, c, s.conns[c].(state := Connected)), c, Established);
      SetInterest(t, c, true, t.conns[c].write)
  }

  /** `newConnection`: a new object under a new name, registered, and handed to its loop. */
  function NewConnection(s: State, fd: nat, loop: nat): Outcome {
    var c := s.nextId;
    var t := s.(
      conns := s.conns[c := Conn(fd, loop, Connecting, false, false, false, New, [Accepted], false, false)],
      nextId := c + 1,
      registry := s.registry + {c},
      open := s.open + {fd});
    if loop == MAIN then ConnectionEstablished(t, c) else Ok(Post(t, loop, Establish(c)))
  }

  /** `handleClose`, up to the user's callback. */
  function BeginClose(s: State, c: nat): Outcome
    requires c in s.conns
  {
    if !s.conns[c].state.Connected? && !s.conns[c].state.Disconnecting? then Fault(StateIsOpenAtClose)
    else
      var t := Mark(Set(s, c, s.conns[c].(state := Disconnected, closing := true)), c, Closed);
      SetInterest(t, c, false, false)
  }

  /** `removeConnectionInLoop`. */
  function RemoveInLoop(s: State, c: nat): Outcome
    requires c in s.conns
  {
    if c !in s.registry then Fault(EraseCountIsOne)
    else Ok(Post(Mark(s, c, Erased).(registry := s.registry - {c}), s.conns[c].loop, Destroy(c)))
  }

  /** The rest of `handleClose`: the close callback, `TcpServerff::removeConnection`. */
  function FinishClose(s: State, c: nat): Outcome
    requires c in s.conns
  {
    var t := Set(s, c, s.conns[c].(closing := false));
    if s.conns[c].loop == MAIN then RemoveInLoop(t, c) else Ok(Post(t, MAIN, Remove(c)))
  }

  /** `connectionDestroy`. */
  function ConnectionDestroy(s: State, c: nat): Outcome
    requires c in s.conns
  {
    var closed :=
      if s.conns[c].state.Connected? then SetInterest(Set(s, c, s.conns[c].(state := Disconnected)), c, false, false)
      else Ok(s);
    if closed.Fault? then closed else
    var removed := RemoveChannel(closed.state, c);
    if removed.Fault? then removed else Ok(Mark(removed.state, c, Destroyed))
  }

  /** The last reference goes: `~TcpConnectionff` and `~Channelff`, then the descriptor is closed. */
  function Free(s: State, c: nat): Outcome
    requires c in s.conns
  {
    var k := s.conns[c];
    if !k.state.Disconnected? then Fault(StateIsClosedAtEnd)
    else if !k.index.New? then Fault(OutOfLoopAtEnd)
    else Ok(Set(s, c, k.(released := true)).(open := s.open - {k.fd}))
  }

  /** The loop runs the functor at the head of its queue. */
  function Deliver(s: State, l: nat): Outcome
    requires Queue(s, l) != [] && Queue(s, l)[0].conn in s.conns
  {
    var t := Pop(s, l);
    match Queue(s, l)[0]
    case Establish(c) => ConnectionEstablished(t, c)
    case Remove(c) => RemoveInLoop(t, c)
    case Destroy(c) => ConnectionDestroy(t, c)
  }

  // ---------------------------------------------------------------- what the user may do

  /** Calls user code makes on the connection's loop thread, from a callback of this connection or of
      another.  `WantWrite` is the end of a `sendInLoop` that could not write everything; one queued before a
      `shutdown` comes after it. */
  datatype Action = Shutdown | ForceClose | StartRead | StopRead | WantWrite

  predicate OnlyReading(k: Conn) { k.read && !k.write }

  predicate OnlyWriting(k: Conn) { k.write && !k.read }

  function Act(s: State, c: nat, a: Action): Outcome
    requires c in s.conns
  {
    var k := s.conns[c];
    match a
    case Shutdown => Ok(if k.state.Connected? then Set(s, c, k.(state := Disconnecting)) else s)
    case ForceClose => if k.state.Connected? || k.state.Disconnecting? then BeginClose(s, c) else Ok(s)
    case StartRead =>
      if !k.reading || !OnlyReading(k) then SetInterest(Set(s, c, k.(reading := true)), c, true, k.write) else Ok(s)
    case StopRead =>
      if k.reading || OnlyReading(k) then SetInterest(Set(s, c, k.(reading := false)), c, false, k.write) else Ok(s)
    case WantWrite =>
      if (k.state.Connected? || k.state.Disconnecting?) && !OnlyWriting(k)
      then SetInterest(s, c, k.read, true) else Ok(s)
  }

  datatype Event =
    | Accept(fd: nat, loop: nat)
    | SwapFunctors(loop: nat)            // `functors.swap(pendingFunctors_)`
    | DeliverHead(loop: nat)
    | Poll(loop: nat, ready: set<nat>)   // `epoll_wait` returns
    | Readable(conn: nat)                // `handleRead` reads some bytes
    | EndOfFile(conn: nat)               // `handleRead` reads 0 bytes
    | Drained(conn: nat)                 // `handleWrite` empties the output buffer
    | User(conn: nat, action: Action)
    | CloseCallback(conn: nat)
    | Release(conn: nat)

  /** The active list of a loop has been worked off. */
  predicate AllHandled(s: State, l: nat) {
    forall c :: c in s.reported && c in s.conns ==> s.conns[c].loop != l
  }

  function TurnOf(s: State, l: nat): Turn {
    if l in s.turns then s.turns[l] else Running(0)
  }

  function SetTurn(s: State, l: nat, t: Turn): State {
    s.(turns := s.turns[l := t])
  }

  /** The functors swapped out have run. */
  predicate BatchDone(s: State, l: nat) {
    TurnOf(s, l).Running? && (TurnOf(s, l).left == 0 || Queue(s, l) == [])
  }

  /** The loop is inside no `handleClose`. */
  predicate Settled(s: State, l: nat) {
    forall c :: c in s.conns && s.conns[c].closing ==> s.conns[c].loop != l
  }

  predicate Reportable(s: State, c: nat, l: nat) {
    c in s.conns && s.conns[c].loop == l && s.conns[c].index.Added? && s.conns[c].read
  }

  /** When a step can happen.  The kernel hands out only unused descriptors and reports only what is asked
      for.  A loop polls, handles what was reported, swaps the queued functors out, runs them, and polls
      again, each call to its end.  A connection is the user's from its establishment on, until the last
      reference is gone. */
  predicate Enabled(s: State, e: Event) {
    match e
    case Accept(fd, _) => fd !in s.open
    case SwapFunctors(l) => TurnOf(s, l).Handling? && AllHandled(s, l) && Settled(s, l)
    case DeliverHead(l) =>
      && TurnOf(s, l).Running? && TurnOf(s, l).left > 0 && AllHandled(s, l) && Settled(s, l)
      && Queue(s, l) != [] && Queue(s, l)[0].conn in s.conns
    case Poll(l, ready) =>
      BatchDone(s, l) && AllHandled(s, l) && Settled(s, l) && forall c :: c in ready ==> Reportable(s, c, l)
    case Readable(c) => c in s.reported && c in s.conns && Settled(s, s.conns[c].loop)
    case EndOfFile(c) => c in s.reported && c in s.conns && Settled(s, s.conns[c].loop)
    case Drained(c) => c in s.conns && s.conns[c].index.Added? && OnlyWriting(s.conns[c])
    case User(c, a) => c in s.conns && !s.conns[c].state.Connecting? && !s.conns[c].released
    case CloseCallback(c) => c in s.conns && s.conns[c].closing
    case Release(c) => c in s.conns && Destroyed in s.conns[c].log && !s.conns[c].released
  }

  function Unreport(s: State, c: nat): State {
    s.(reported := s.reported - {c})
  }

  function Step(s: State, e: Event): Outcome {
    if !Enabled(s, e) then Ok(s) else
    match e
    case Accept(fd, loop) => NewConnection(s, fd, loop)
    case SwapFunctors(l) => Ok(SetTurn(s, l, Running(|Queue(s, l)|)))
    case DeliverHead(l) => Deliver(SetTurn(s, l, Running(TurnOf(s, l).left - 1)), l)
    case Poll(l, ready) => Ok(SetTurn(s, l, Handling).(reported := s.reported + ready))
    case Readable(c) => Ok(Unreport(s, c))
    case EndOfFile(c) => BeginClose(Unreport(s, c), c)
    case Drained(c) => SetInterest(s, c, s.conns[c].read, false)
    case User(c, a) => Act(s, c, a)
    case CloseCallback(c) => FinishClose(s, c)
    case Release(c) => Free(s, c)
  }

  function Run(s: State, es: seq<Event>): Outcome
    decreases |es|
  {
    if es == [] then Ok(s) else
    var r := Step(s, es[0]);
    if r.Fault? then r else Run(r.state, es[1..])
  }

  function Init(): State {
    State(map[], 1, {}, map[], map[], {}, {}, map[])
  }

  // ---------------------------------------------------------------- the invariant

  /** The one way a life goes. */
  function Course(): seq<Milestone> {
    [Accepted, Established, Closed, Erased, Destroyed]
  }

  /** What each stage of a life looks like. */
  predicate StageOk(k: Conn, registered: bool) {
    && 1 <= |k.log| <= 5 && k.log == Course()[..|k.log|]
    && (k.released ==> |k.log| == 5 && k.index.New?)
    && (k.closing ==> |k.log| == 3)
    && (registered <==> |k.log| <= 3)
    && (|k.log| == 1 ==> k.index.New?)
    && (2 <= |k.log| <= 4 ==> !k.index.New?)
    && (!k.index.Added? ==> !k.read && !k.write)
    && (|k.log| >= 3 ==> !k.write)
    && (k.state.Connecting? <==> |k.log| == 1)
    && (k.state.Disconnected? <==> |k.log| >= 3)
  }

  predicate Stages(s: State) {
    && s.registry <= s.conns.Keys
    && forall c :: c in s.conns ==> c < s.nextId && StageOk(s.conns[c], c in s.registry)
  }

  /** Descriptors in use are distinct. */
  predicate Descriptors(s: State) {
    && (forall c :: c in s.conns && !s.conns[c].released ==> s.conns[c].fd in s.open)
    && (forall c, d :: c in s.conns && d in s.conns && c != d && !s.conns[c].released && !s.conns[d].released ==>
      s.conns[c].fd != s.conns[d].fd)
  }

  /** Every poller knows exactly the channels that say so. */
  ghost predicate Pollers(s: State) {
    && (forall key :: key in s.pollers ==>
      && s.pollers[key] in s.conns
      && key == (s.conns[s.pollers[key]].loop, s.conns[s.pollers[key]].fd)
      && !s.conns[s.pollers[key]].index.New?)
    && (forall c :: c in s.conns && !s.conns[c].index.New? ==> Registered(s, c))
  }

  /** The message a connection waits for, and the loop it is on. */
  predicate InFlight(s: State, l: nat, m: Message) {
    && m.conn in s.conns
    && var k := s.conns[m.conn];
       match m
       case Establish(_) => |k.log| == 1 && l == k.loop
       case Remove(_) => |k.log| == 3 && !k.closing && l == MAIN
       case Destroy(_) => |k.log| == 4 && l == k.loop
  }

  /** Exactly the awaited messages are queued, each once. */
  ghost predicate Messages(s: State) {
    forall l, m :: multiset(Queue(s, l))[m] == if InFlight(s, l, m) then 1 else 0
  }

  /** Only a channel its poller knows is in an active list. */
  predicate Reports(s: State) {
    forall c :: c in s.reported ==> c in s.conns && !s.conns[c].index.New?
  }

  ghost predicate Inv(s: State) {
    Stages(s) && Descriptors(s) && Pollers(s) && Messages(s) && Reports(s)
  }

  // ---------------------------------------------------------------- facts about queues

  function Count(s: State, l: nat, m: Message): nat {
    multiset(Queue(s, l))[m]
  }

  /** The messages of everybody but `c` are as before, and `c` has exactly those it awaits. */
  ghost predicate CountsFollow(s: State, t: State, c: nat) {
    forall l, m :: Count(t, l, m) == if m.conn != c then Count(s, l, m) else if InFlight(t, l, m) then 1 else 0
  }

  lemma PostFact(s: State, l: nat, m: Message)
    ensures forall j, x :: Count(Post(s, l, m), j, x) == Count(s, j, x) + if j == l && x == m then 1 else 0
  {
  }

  function Pop(s: State, l: nat): State
    requires Queue(s, l) != []
  {
    s.(queues := s.queues[l := Queue(s, l)[1..]])
  }

  lemma PopFact(s: State, l: nat)
    requires Queue(s, l) != []
    ensures forall j, x :: Count(Pop(s, l), j, x) == Count(s, j, x) - if j == l && x == Queue(s, l)[0] then 1 else 0
  {
    assert Queue(s, l) == [Queue(s, l)[0]] + Queue(s, l)[1..];
  }

  /** The head of a queue is a message its connection is waiting for. */
  lemma HeadInFlight(s: State, l: nat)
    requires Messages(s) && Queue(s, l) != []
    ensures InFlight(s, l, Queue(s, l)[0])
  {
    assert Queue(s, l)[0] in multiset(Queue(s, l));
    assert Count(s, l, Queue(s, l)[0]) > 0;
  }

  /** The awaited messages depend only on how far each life has got. */
  lemma SameStagesSameFlight(s: State, t: State)
    requires s.conns.Keys == t.conns.Keys
    requires forall c :: c in s.conns ==>
      s.conns[c].log == t.conns[c].log && s.conns[c].closing == t.conns[c].closing &&
        s.conns[c].loop == t.conns[c].loop
    ensures forall l, m :: InFlight(s, l, m) <==> InFlight(t, l, m)
  {
  }

  /** Only connection `c` differs. */
  predicate OnlyDiffersAt(s: State, t: State, c: nat) {
    && c in t.conns && s.conns.Keys + {c} == t.conns.Keys
    && forall d :: d in s.conns && d != c ==> t.conns[d] == s.conns[d]
  }

  lemma OthersSameFlight(s: State, t: State, c: nat)
    requires OnlyDiffersAt(s, t, c)
    ensures forall l, m: Message :: m.conn != c ==> (InFlight(s, l, m) <==> InFlight(t, l, m))
  {
  }

  lemma StageFacts(s: State, c: nat)
    requires Inv(s) && c in s.conns
    ensures var k := s.conns[c];
            && 1 <= |k.log| <= 5 && StageOk(k, c in s.registry)
            && (k.state.Connecting? <==> |k.log| == 1) && (k.state.Disconnected? <==> |k.log| >= 3)
            && (|k.log| >= 3 ==> !k.write) && (k.closing ==> |k.log| == 3)
            && c < s.nextId && s.registry <= s.conns.Keys
  {
  }

  lemma FullCourse(k: Conn, registered: bool)
    requires StageOk(k, registered)
    ensures Destroyed in k.log <==> |k.log| == 5
  {
    assert Course()[4] == Destroyed;
    assert |k.log| == 5 ==> k.log == Course();
  }

  lemma CourseNext(n: nat)
    requires n < 5
    ensures Course()[..n] + [Course()[n]] == Course()[..n + 1]
  {
  }

  // ---------------------------------------------------------------- the channel bookkeeping never fails

  /** What `SetInterest` relies on: the pollers are exact and a closed descriptor is in no poller. */
  ghost predicate Mirror(s: State) {
    Pollers(s) && Descriptors(s) && forall c :: c in s.conns && s.conns[c].released ==> s.conns[c].index.New?
  }

  lemma StagesGiveMirror(s: State)
    requires Inv(s)
    ensures Mirror(s)
  {
  }

  /** A descriptor reused for a new connection is in no poller: the old connection's channel left first. */
  lemma NoCollision(s: State, c: nat)
    requires Mirror(s) && c in s.conns && s.conns[c].index.New? && !s.conns[c].released
    ensures (s.conns[c].loop, s.conns[c].fd) !in s.pollers
  {
  }

  lemma KnownIsRegistered(s: State, c: nat)
    requires Mirror(s) && c in s.conns
    ensures !s.conns[c].index.New? ==> Registered(s, c)
  {
  }

  /** A channel the poller already knows may change its bits and its index. */
  lemma KnownChannelKeepsMirror(s: State, t: State, c: nat)
    requires Mirror(s) && OnlyDiffersAt(s, t, c) && c in s.conns && t.pollers == s.pollers && t.open == s.open
    requires t.conns[c].fd == s.conns[c].fd && t.conns[c].loop == s.conns[c].loop
    requires (t.conns[c].index.New? <==> s.conns[c].index.New?) && t.conns[c].released == s.conns[c].released
    ensures Mirror(t)
  {
    forall d | d in t.conns && !t.conns[d].index.New? ensures Registered(t, d) {
      assert Registered(s, d);
    }
  }

  lemma NewChannelKeepsMirror(s: State, t: State, c: nat)
    requires Mirror(s) && OnlyDiffersAt(s, t, c) && c in s.conns && !s.conns[c].released
    requires s.conns[c].index.New? && t.open == s.open
    requires t.pollers == s.pollers[(s.conns[c].loop, s.conns[c].fd) := c]
    requires t.conns[c].fd == s.conns[c].fd && t.conns[c].loop == s.conns[c].loop
    requires !t.conns[c].index.New? && !t.conns[c].released
    ensures Mirror(t)
  {
    NoCollision(s, c);
    forall d | d in t.conns && !t.conns[d].index.New? ensures Registered(t, d) {
      if d != c {
        assert Registered(s, d);
      }
    }
  }

  /** What `update` changes when its asserts hold. */
  predicate InterestSet(s: State, t: State, c: nat, read: bool, write: bool) {
    && c in s.conns && OnlyDiffersAt(s, t, c)
    && !t.conns[c].index.New? && (t.conns[c].index.Deleted? ==> !read && !write)
    && t.conns[c] == s.conns[c].(read := read, write := write, index := t.conns[c].index)
    && t.registry == s.registry && t.queues == s.queues && t.nextId == s.nextId && t.open == s.open
    && t.reported == s.reported
  }

  lemma SetInterestShape(s: State, c: nat, read: bool, write: bool)
    requires c in s.conns
    requires if s.conns[c].index.New? then (s.conns[c].loop, s.conns[c].fd) !in s.pollers else Registered(s, c)
    ensures var r := SetInterest(s, c, read, write);
            && r.Ok? && InterestSet(s, r.state, c, read, write)
            && r.state.pollers == if s.conns[c].index.New?
              then s.pollers[(s.conns[c].loop, s.conns[c].fd) := c] else s.pollers
  {
  }

  lemma SetInterestOk(s: State, c: nat, read: bool, write: bool)
    requires Mirror(s) && c in s.conns && !s.conns[c].released
    ensures var r := SetInterest(s, c, read, write);
            r.Ok? && Mirror(r.state) && InterestSet(s, r.state, c, read, write)
  {
    if s.conns[c].index.New? {
      NoCollision(s, c);
      SetInterestShape(s, c, read, write);
      hide SetInterest;
      NewChannelKeepsMirror(s, SetInterest(s, c, read, write).state, c);
    } else {
      KnownIsRegistered(s, c);
      SetInterestShape(s, c, read, write);
      hide SetInterest;
      KnownChannelKeepsMirror(s, SetInterest(s, c, read, write).state, c);
    }
  }

  lemma RemoveChannelOk(s: State, c: nat)
    requires Mirror(s) && c in s.conns && !s.conns[c].index.New? && !s.conns[c].read && !s.conns[c].write
    ensures var r := RemoveChannel(s, c);
            && r.Ok? && Mirror(r.state)
            && OnlyDiffersAt(s, r.state, c)
            && r.state.conns[c] == s.conns[c].(index := New)
            && r.state.registry == s.registry && r.state.queues == s.queues && r.state.nextId == s.nextId
            && r.state.open == s.open && r.state.reported == s.reported
  {
    assert Registered(s, c);
    var t := RemoveChannel(s, c).state;
    forall d | d in t.conns && !t.conns[d].index.New? ensures Registered(t, d) {
      assert Registered(s, d);
    }
  }

  // ---------------------------------------------------------------- each step keeps the invariant

  /** A step that leaves every life where it is. */
  lemma SameStage(s: State, t: State, c: nat)
    requires Inv(s) && Mirror(t) && OnlyDiffersAt(s, t, c) && c in s.conns
    requires t.registry == s.registry && t.queues == s.queues && t.nextId == s.nextId
    requires t.conns[c].log == s.conns[c].log && t.conns[c].closing == s.conns[c].closing
    requires t.conns[c].loop == s.conns[c].loop
    requires StageOk(t.conns[c], c in t.registry)
    requires t.reported <= s.reported && (t.conns[c].index.New? ==> c !in t.reported)
    ensures Inv(t)
  {
    SameStagesSameFlight(s, t);
    assert forall l :: Queue(t, l) == Queue(s, l);
  }

  lemma InterestKeepsInv(s: State, c: nat, k: Conn, read: bool, write: bool)
    requires Inv(s) && c in s.conns && !s.conns[c].released
    requires |s.conns[c].log| == 2 || (|s.conns[c].log| > 2 && !write)
    requires k == s.conns[c].(reading := k.reading)
    ensures SetInterest(Set(s, c, k), c, read, write).Ok?
    ensures Inv(SetInterest(Set(s, c, k), c, read, write).state)
  {
    StagesGiveMirror(s);
    assert StageOk(s.conns[c], c in s.registry);
    KnownChannelKeepsMirror(s, Set(s, c, k), c);
    SetInterestOk(Set(s, c, k), c, read, write);
    hide SetInterest, Inv, Mirror;
    SameStage(s, SetInterest(Set(s, c, k), c, read, write).state, c);
  }

  /** A step in the life of `c` only: everybody else's messages are as before, and `c` has the one it awaits. */
  lemma Advances(s: State, t: State, c: nat)
    requires Inv(s) && Mirror(t) && OnlyDiffersAt(s, t, c) && c < t.nextId && s.nextId <= t.nextId
    requires t.registry <= t.conns.Keys && forall d :: d != c ==> (d in t.registry <==> d in s.registry)
    requires StageOk(t.conns[c], c in t.registry)
    requires CountsFollow(s, t, c)
    requires t.reported <= s.reported && (t.conns[c].index.New? ==> c !in t.reported)
    ensures Inv(t)
  {
    OthersSameFlight(s, t, c);
    forall l, m ensures Count(t, l, m) == if InFlight(t, l, m) then 1 else 0 {
      assert Count(s, l, m) == if InFlight(s, l, m) then 1 else 0;
    }
  }

  /** The parts of the state that only posting and registering change. */
  predicate SameBooks(s: State, t: State) {
    t.registry == s.registry && t.queues == s.queues && t.nextId == s.nextId && t.reported == s.reported
  }

  lemma EstablishShape(p: State, c: nat)
    requires Mirror(p) && c in p.conns && !p.conns[c].released
    requires StageOk(p.conns[c], true) && |p.conns[c].log| == 1
    ensures var r := ConnectionEstablished(p, c);
            && r.Ok? && Mirror(r.state) && OnlyDiffersAt(p, r.state, c) && SameBooks(p, r.state)
            && StageOk(r.state.conns[c], true) && |r.state.conns[c].log| == 2 &&
              r.state.conns[c].loop == p.conns[c].loop
  {
    var q := Mark(Set(p, c, p.conns[c].(state := Connected)), c, Established);
    KnownChannelKeepsMirror(p, q, c);
    SetInterestOk(q, c, true, q.conns[c].write);
    EstablishedStage(p.conns[c], SetInterest(q, c, true, q.conns[c].write).state.conns[c]);
    hide SetInterest, Mirror, StageOk;
  }

  lemma EstablishedStage(k: Conn, n: Conn)
    requires StageOk(k, true) && |k.log| == 1 && !n.index.New? && (n.index.Deleted? ==> !n.read && !n.write)
    requires n == k.(state := Connected, log := k.log + [Established], read := n.read, index := n.index)
    ensures StageOk(n, true) && |n.log| == 2
  {
    CourseNext(1);
  }

  lemma BeginCloseShape(p: State, c: nat)
    requires Mirror(p) && c in p.conns && !p.conns[c].released
    requires StageOk(p.conns[c], true) && |p.conns[c].log| == 2
    ensures var r := BeginClose(p, c);
            && r.Ok? && Mirror(r.state) && OnlyDiffersAt(p, r.state, c) && SameBooks(p, r.state)
            && StageOk(r.state.conns[c], true) && |r.state.conns[c].log| == 3 && r.state.conns[c].closing
            && !r.state.conns[c].read && r.state.conns[c].reading == p.conns[c].reading
  {
    var q := Mark(Set(p, c, p.conns[c].(state := Disconnected, closing := true)), c, Closed);
    assert p.conns[c].state.Connected? || p.conns[c].state.Disconnecting?;
    KnownChannelKeepsMirror(p, q, c);
    SetInterestOk(q, c, false, false);
    ClosedStage(p.conns[c], SetInterest(q, c, false, false).state.conns[c]);
    hide SetInterest, Mirror, StageOk;
  }

  lemma ClosedStage(k: Conn, n: Conn)
    requires StageOk(k, true) && |k.log| == 2 && !n.index.New?
    requires n == k.(state := Disconnected, closing := true, log := k.log + [Closed],
                     read := false, write := false, index := n.index)
    ensures StageOk(n, true) && |n.log| == 3
  {
    CourseNext(2);
  }

  lemma DestroyShape(p: State, c: nat)
    requires Mirror(p) && c in p.conns
    requires StageOk(p.conns[c], false) && |p.conns[c].log| == 4 && !p.conns[c].read
    ensures var r := ConnectionDestroy(p, c);
            && r.Ok? && Mirror(r.state) && OnlyDiffersAt(p, r.state, c) && SameBooks(p, r.state)
            && StageOk(r.state.conns[c], false) && |r.state.conns[c].log| == 5
            && r.state.conns[c].index.New? && r.state.conns[c].reading == p.conns[c].reading
  {
    CourseNext(4);
    RemoveChannelOk(p, c);
    var q := RemoveChannel(p, c).state;
    KnownChannelKeepsMirror(q, Mark(q, c, Destroyed), c);
  }

  /** A connection that has got its message waits for no other. */
  lemma DeliveredCounts(s: State, t: State, l: nat)
    requires Inv(s) && Queue(s, l) != [] && t.queues == Pop(s, l).queues
    requires Queue(s, l)[0].conn in t.conns && |t.conns[Queue(s, l)[0].conn].log| in {2, 5}
    ensures CountsFollow(s, t, Queue(s, l)[0].conn)
  {
    var c := Queue(s, l)[0].conn;
    PopFact(s, l);
    HeadInFlight(s, l);
    forall j, m ensures Count(t, j, m) == if m.conn != c then Count(s, j, m) else if InFlight(t, j, m) then 1 else 0 {
      assert Count(t, j, m) == Count(Pop(s, l), j, m);
      assert Count(s, j, m) == if InFlight(s, j, m) then 1 else 0;
    }
  }

  lemma EstablishDelivered(s: State, l: nat)
    requires Inv(s) && Queue(s, l) != [] && Queue(s, l)[0].Establish?
    ensures Queue(s, l)[0].conn in s.conns
    ensures Deliver(s, l).Ok? && Inv(Deliver(s, l).state)
  {
    HeadInFlight(s, l);
    StagesGiveMirror(s);
    var c := Queue(s, l)[0].conn;
    var p := Pop(s, l);
    KnownChannelKeepsMirror(s, p, c);
    StageFacts(s, c);
    hide Inv, Mirror, StageOk, ConnectionEstablished, Messages;
    EstablishShape(p, c);
    var t := Deliver(s, l).state;
    DeliveredCounts(s, t, l);
    Advances(s, t, c);
  }

  lemma EraseShape(p: State, c: nat)
    requires Mirror(p) && c in p.conns && c in p.registry
    requires StageOk(p.conns[c], true) && |p.conns[c].log| == 3 && !p.conns[c].closing
    ensures var r := RemoveInLoop(p, c);
            && r.Ok? && Mirror(r.state) && OnlyDiffersAt(p, r.state, c)
            && r.state.registry == p.registry - {c} && r.state.nextId == p.nextId
            && r.state.queues == Post(p, p.conns[c].loop, Destroy(c)).queues && r.state.reported == p.reported
            && StageOk(r.state.conns[c], false) && |r.state.conns[c].log| == 4 &&
              r.state.conns[c].loop == p.conns[c].loop
  {
    CourseNext(3);
    KnownChannelKeepsMirror(p, RemoveInLoop(p, c).state, c);
  }

  lemma EraseCounts(s: State, t: State, l: nat, c: nat)
    requires Messages(s) && c in s.conns && c in t.conns && |s.conns[c].log| == 3 && |t.conns[c].log| == 4
    requires Queue(s, l) != [] && Queue(s, l)[0] == Remove(c) && InFlight(s, l, Remove(c))
    requires t.queues == Post(Pop(s, l), t.conns[c].loop, Destroy(c)).queues
    ensures CountsFollow(s, t, c)
  {
    var p := Pop(s, l);
    PopFact(s, l);
    PostFact(p, t.conns[c].loop, Destroy(c));
    forall j, m ensures Count(t, j, m) == if m.conn != c then Count(s, j, m) else if InFlight(t, j, m) then 1 else 0 {
      assert Count(t, j, m) == Count(Post(p, t.conns[c].loop, Destroy(c)), j, m);
      assert Count(s, j, m) == if InFlight(s, j, m) then 1 else 0;
    }
  }

  lemma RemoveDelivered(s: State, l: nat)
    requires Inv(s) && Queue(s, l) != [] && Queue(s, l)[0].Remove?
    ensures Queue(s, l)[0].conn in s.conns
    ensures Deliver(s, l).Ok? && Inv(Deliver(s, l).state)
  {
    HeadInFlight(s, l);
    StagesGiveMirror(s);
    var c := Queue(s, l)[0].conn;
    KnownChannelKeepsMirror(s, Pop(s, l), c);
    EraseShape(Pop(s, l), c);
    EraseCounts(s, Deliver(s, l).state, l, c);
    Advances(s, Deliver(s, l).state, c);
  }

  /** The destroy finds no interest, and succeeds, exactly if the connection does not read. */
  lemma DestroyDelivered(s: State, l: nat)
    requires Inv(s) && Queue(s, l) != [] && Queue(s, l)[0].Destroy? && AllHandled(s, l)
    ensures Queue(s, l)[0].conn in s.conns
    ensures Deliver(s, l).Ok? <==> !s.conns[Queue(s, l)[0].conn].read
    ensures Deliver(s, l).Ok? ==> Inv(Deliver(s, l).state)
  {
    HeadInFlight(s, l);
    if !s.conns[Queue(s, l)[0].conn].read {
      DestroySucceeds(s, l);
    }
  }

  lemma DestroySucceeds(s: State, l: nat)
    requires Inv(s) && Queue(s, l) != [] && Queue(s, l)[0].Destroy? && AllHandled(s, l)
    requires Queue(s, l)[0].conn in s.conns && !s.conns[Queue(s, l)[0].conn].read
    ensures Deliver(s, l).Ok? && Inv(Deliver(s, l).state)
  {
    HeadInFlight(s, l);
    StagesGiveMirror(s);
    var c := Queue(s, l)[0].conn;
    var p := Pop(s, l);
    KnownChannelKeepsMirror(s, p, c);
    StageFacts(s, c);
    hide Inv, Mirror, StageOk, ConnectionDestroy, Messages;
    DestroyShape(p, c);
    var t := Deliver(s, l).state;
    DeliveredCounts(s, t, l);
    Advances(s, t, c);
  }

  lemma BeginCloseKeepsInv(s: State, c: nat)
    requires Inv(s) && c in s.conns && |s.conns[c].log| == 2
    ensures BeginClose(s, c).Ok? && Inv(BeginClose(s, c).state)
    ensures OnlyDiffersAt(s, BeginClose(s, c).state, c) && BeginClose(s, c).state.reported == s.reported
    ensures var k := BeginClose(s, c).state.conns[c]; |k.log| == 3 && !k.read && k.reading == s.conns[c].reading
  {
    StagesGiveMirror(s);
    BeginCloseShape(s, c);
    var t := BeginClose(s, c).state;
    forall j, m ensures Count(t, j, m) == if m.conn != c then Count(s, j, m) else if InFlight(t, j, m) then 1 else 0 {
      assert Count(t, j, m) == Count(s, j, m);
      assert Count(s, j, m) == if InFlight(s, j, m) then 1 else 0;
    }
    Advances(s, t, c);
  }

  lemma FinishCounts(s: State, t: State, l: nat, c: nat, sent: Message)
    requires Inv(s) && c in s.conns && c in t.conns && s.conns[c].closing && |s.conns[c].log| == 3
    requires sent.conn == c && InFlight(t, l, sent) && 3 <= |t.conns[c].log| <= 4
    requires t.queues == Post(s, l, sent).queues
    ensures CountsFollow(s, t, c)
  {
    PostFact(s, l, sent);
    forall j, m ensures Count(t, j, m) == if m.conn != c then Count(s, j, m) else if InFlight(t, j, m) then 1 else 0 {
      assert Count(t, j, m) == Count(Post(s, l, sent), j, m);
      assert Count(s, j, m) == if InFlight(s, j, m) then 1 else 0;
    }
  }

  lemma FinishCloseKeepsInv(s: State, c: nat)
    requires Inv(s) && c in s.conns && s.conns[c].closing
    ensures FinishClose(s, c).Ok? && Inv(FinishClose(s, c).state)
  {
    if s.conns[c].loop == MAIN {
      FinishOnMain(s, c);
    } else {
      FinishElsewhere(s, c);
    }
  }

  lemma FinishOnMain(s: State, c: nat)
    requires Inv(s) && c in s.conns && s.conns[c].closing && s.conns[c].loop == MAIN
    ensures FinishClose(s, c).Ok? && Inv(FinishClose(s, c).state)
  {
    hide Inv, Mirror, Messages;
    StagesGiveMirror(s);
    StageFacts(s, c);
    var p := Set(s, c, s.conns[c].(closing := false));
    KnownChannelKeepsMirror(s, p, c);
    EraseShape(p, c);
    hide StageOk;
    FinishCounts(s, FinishClose(s, c).state, MAIN, c, Destroy(c));
    Advances(s, FinishClose(s, c).state, c);
  }

  lemma FinishElsewhere(s: State, c: nat)
    requires Inv(s) && c in s.conns && s.conns[c].closing && s.conns[c].loop != MAIN
    ensures FinishClose(s, c).Ok? && Inv(FinishClose(s, c).state)
  {
    StagesGiveMirror(s);
    KnownChannelKeepsMirror(s, FinishClose(s, c).state, c);
    FinishCounts(s, FinishClose(s, c).state, MAIN, c, Remove(c));
    Advances(s, FinishClose(s, c).state, c);
  }

  /** The registered, not yet established connection `newConnection` makes. */
  function Accepting(s: State, fd: nat, loop: nat): State {
    s.(conns := s.conns[s.nextId := Conn(fd, loop, Connecting, false, false, false, New, [Accepted], false, false)],
       nextId := s.nextId + 1,
       registry := s.registry + {s.nextId},
       open := s.open + {fd})
  }

  lemma AcceptingShape(s: State, fd: nat, loop: nat)
    requires Inv(s) && fd !in s.open
    ensures s.nextId !in s.conns
    ensures var p := Accepting(s, fd, loop);
            && Mirror(p) && OnlyDiffersAt(s, p, s.nextId) && StageOk(p.conns[s.nextId], true)
            && |p.conns[s.nextId].log| == 1
  {
    var p := Accepting(s, fd, loop);
    assert Course()[..1] == [Accepted];
    forall d | d in p.conns && !p.conns[d].index.New? ensures Registered(p, d) {
      assert Registered(s, d);
    }
  }

  /** Nothing was queued for a connection that did not exist. */
  lemma NewcomersCounts(s: State, t: State, c: nat)
    requires Inv(s) && c !in s.conns && c in t.conns
    requires if t.queues == s.queues then |t.conns[c].log| == 2
             else |t.conns[c].log| == 1 && t.queues == Post(s, t.conns[c].loop, Establish(c)).queues
    ensures CountsFollow(s, t, c)
  {
    PostFact(s, t.conns[c].loop, Establish(c));
    forall j, m ensures Count(t, j, m) == if m.conn != c then Count(s, j, m) else if InFlight(t, j, m) then 1 else 0 {
      assert Count(s, j, m) == if InFlight(s, j, m) then 1 else 0;
      assert t.queues != s.queues ==> Count(t, j, m) == Count(Post(s, t.conns[c].loop, Establish(c)), j, m);
      assert t.queues == s.queues ==> Count(t, j, m) == Count(s, j, m);
    }
  }

  lemma PostChangesQueues(s: State, l: nat, m: Message)
    ensures Post(s, l, m).queues != s.queues
  {
    assert |Queue(Post(s, l, m), l)| == |Queue(s, l)| + 1;
  }

  lemma AcceptKeepsInv(s: State, fd: nat, loop: nat)
    requires Inv(s) && fd !in s.open
    ensures NewConnection(s, fd, loop).Ok? && Inv(NewConnection(s, fd, loop).state)
  {
    hide Inv, Mirror, StageOk, ConnectionEstablished;
    var c := s.nextId;
    var p := Accepting(s, fd, loop);
    AcceptingShape(s, fd, loop);
    if loop == MAIN {
      EstablishShape(p, c);
    } else {
      KnownChannelKeepsMirror(p, Post(p, loop, Establish(c)), c);
      PostChangesQueues(s, loop, Establish(c));
    }
    var t := NewConnection(s, fd, loop).state;
    assert t.reported == s.reported;
    NotYetReported(s);
    NewcomersCounts(s, t, c);
    Advances(s, t, c);
  }

  lemma NotYetReported(s: State)
    requires Inv(s)
    ensures s.nextId !in s.reported && s.registry <= s.conns.Keys
  {
    assert s.nextId in s.reported ==> s.nextId in s.conns;
  }

  /** The last reference may go exactly if no loop knows the channel. */
  lemma FreeSucceedsExactly(s: State, c: nat)
    requires Inv(s) && Enabled(s, Release(c))
    ensures Free(s, c).Ok? <==> s.conns[c].index.New?
    ensures Free(s, c).Ok? ==> Inv(Free(s, c).state)
  {
    FullCourse(s.conns[c], c in s.registry);
    if s.conns[c].index.New? {
      ReleaseKeepsInv(s, c);
    }
  }

  lemma ReleaseKeepsInv(s: State, c: nat)
    requires Inv(s) && c in s.conns && |s.conns[c].log| == 5 && s.conns[c].index.New? && !s.conns[c].released
    ensures Free(s, c).Ok? && Inv(Free(s, c).state)
  {
    var t := Free(s, c).state;
    StagesGiveMirror(s);
    hide Messages, SetInterest, RemoveChannel;
    forall d | d in t.conns && !t.conns[d].index.New? ensures Registered(t, d) {
      assert Registered(s, d);
    }
    SameStage(s, t, c);
  }

  lemma ShutdownKeepsInv(s: State, c: nat)
    requires Inv(s) && c in s.conns && s.conns[c].state.Connected?
    ensures Inv(Set(s, c, s.conns[c].(state := Disconnecting)))
  {
    var t := Set(s, c, s.conns[c].(state := Disconnecting));
    StagesGiveMirror(s);
    KnownChannelKeepsMirror(s, t, c);
    SameStage(s, t, c);
  }

  lemma ActKeepsInv(s: State, c: nat, a: Action)
    requires Inv(s) && Enabled(s, User(c, a))
    ensures Act(s, c, a).Ok? && Inv(Act(s, c, a).state)
  {
    var k := s.conns[c];
    assert StageOk(k, c in s.registry);
    hide SetInterest, BeginClose, Inv;
    match a
    case Shutdown =>
      if k.state.Connected? {
        ShutdownKeepsInv(s, c);
      }
    case ForceClose =>
      if k.state.Connected? || k.state.Disconnecting? {
        BeginCloseKeepsInv(s, c);
      }
    case StartRead => StartReadKeepsInv(s, c);
    case StopRead => StopReadKeepsInv(s, c);
    case WantWrite =>
      if k.state.Connected? || k.state.Disconnecting? {
        WantWriteKeepsInv(s, c);
      }
  }

  lemma StartReadKeepsInv(s: State, c: nat)
    requires Inv(s) && Enabled(s, User(c, StartRead))
    ensures Act(s, c, StartRead).Ok? && Inv(Act(s, c, StartRead).state)
  {
    hide SetInterest, Inv, StageOk;
    var k := s.conns[c];
    StageFacts(s, c);
    InterestKeepsInv(s, c, k.(reading := true), true, k.write);
  }

  lemma StopReadKeepsInv(s: State, c: nat)
    requires Inv(s) && Enabled(s, User(c, StopRead))
    ensures Act(s, c, StopRead).Ok? && Inv(Act(s, c, StopRead).state)
  {
    hide SetInterest, Inv, StageOk;
    var k := s.conns[c];
    StageFacts(s, c);
    InterestKeepsInv(s, c, k.(reading := false), false, k.write);
  }

  lemma WantWriteKeepsInv(s: State, c: nat)
    requires Inv(s) && c in s.conns && (s.conns[c].state.Connected? || s.conns[c].state.Disconnecting?)
    ensures Act(s, c, WantWrite).Ok? && Inv(Act(s, c, WantWrite).state)
  {
    hide SetInterest, Inv, StageOk;
    var k := s.conns[c];
    StageFacts(s, c);
    assert Set(s, c, k) == s;
    InterestKeepsInv(s, c, k, k.read, true);
  }

  lemma TurnKeepsInv(s: State, l: nat, u: Turn)
    requires Inv(s)
    ensures Inv(SetTurn(s, l, u))
  {
    var t := SetTurn(s, l, u);
    assert forall j :: Queue(t, j) == Queue(s, j);
    assert forall j, m :: InFlight(t, j, m) <==> InFlight(s, j, m);
    assert forall c :: c in s.conns && !s.conns[c].index.New? ==> Registered(s, c);
  }

  lemma ReportKeepsInv(s: State, l: nat, ready: set<nat>)
    requires Inv(s) && forall c :: c in ready ==> Reportable(s, c, l)
    ensures Inv(s.(reported := s.reported + ready))
  {
    var t := s.(reported := s.reported + ready);
    assert forall j :: Queue(t, j) == Queue(s, j);
    assert forall j, m :: InFlight(t, j, m) <==> InFlight(s, j, m);
    assert forall c :: c in s.conns && !s.conns[c].index.New? ==> Registered(s, c);
  }

  lemma UnreportKeepsInv(s: State, c: nat)
    requires Inv(s)
    ensures Inv(Unreport(s, c))
  {
    var t := Unreport(s, c);
    assert forall j :: Queue(t, j) == Queue(s, j);
    assert forall j, m :: InFlight(t, j, m) <==> InFlight(s, j, m);
    assert forall d :: d in s.conns && !s.conns[d].index.New? ==> Registered(s, d);
  }

  /** End of file is handled well exactly if nothing has closed the connection since the poll reported it. */
  lemma EndOfFileSucceedsExactly(s: State, c: nat)
    requires Inv(s) && Enabled(s, EndOfFile(c))
    ensures BeginClose(Unreport(s, c), c).Ok? <==> !s.conns[c].state.Disconnected?
    ensures BeginClose(Unreport(s, c), c).Ok? ==> Inv(BeginClose(Unreport(s, c), c).state)
  {
    if !s.conns[c].state.Disconnected? {
      UnreportKeepsInv(s, c);
      BeginCloseKeepsInv(Unreport(s, c), c);
    }
  }

  lemma DeliverSucceedsExactly(s: State, l: nat)
    requires Inv(s) && Queue(s, l) != [] && AllHandled(s, l)
    ensures Queue(s, l)[0].conn in s.conns
    ensures Deliver(s, l).Ok? <==> !(Queue(s, l)[0].Destroy? && s.conns[Queue(s, l)[0].conn].read)
    ensures Deliver(s, l).Ok? ==> Inv(Deliver(s, l).state)
  {
    match Queue(s, l)[0]
    case Establish(_) => EstablishDelivered(s, l);
    case Remove(_) => RemoveDelivered(s, l);
    case Destroy(_) => DestroyDelivered(s, l);
  }

  /** The steps that fail an assert: destroying a connection that reads, handling end of file of one that
      something else has closed, and dropping one whose channel has come back into a loop. */
  predicate Misstep(s: State, e: Event) {
    && Enabled(s, e)
    && match e
       case DeliverHead(l) => Queue(s, l)[0].Destroy? && s.conns[Queue(s, l)[0].conn].read
       case EndOfFile(c) => s.conns[c].state.Disconnected?
       case Release(c) => !s.conns[c].index.New?
       case _ => false
  }

  /** A step fails an assert exactly if it is one of those, and otherwise keeps the invariant. */
  lemma StepSucceedsExactly(s: State, e: Event)
    requires Inv(s)
    ensures Step(s, e).Ok? <==> !Misstep(s, e)
    ensures Step(s, e).Ok? ==> Inv(Step(s, e).state)
  {
    hide Inv, NewConnection, Deliver, BeginClose, FinishClose, SetInterest, Act, Free, InFlight;
    if Enabled(s, e) {
      match e
      case Accept(fd, loop) => AcceptKeepsInv(s, fd, loop);
      case SwapFunctors(l) => TurnKeepsInv(s, l, Running(|Queue(s, l)|));
      case DeliverHead(l) => DeliverHeadSucceedsExactly(s, l);
      case Poll(l, ready) => PollKeepsInv(s, l, ready);
      case Readable(c) => UnreportKeepsInv(s, c);
      case EndOfFile(c) => EndOfFileSucceedsExactly(s, c);
      case Drained(c) => DrainedKeepsInv(s, c);
      case User(c, a) => ActKeepsInv(s, c, a);
      case CloseCallback(c) => FinishCloseKeepsInv(s, c);
      case Release(c) => FreeSucceedsExactly(s, c);
    }
  }

  lemma DeliverHeadSucceedsExactly(s: State, l: nat)
    requires Inv(s) && Enabled(s, DeliverHead(l))
    ensures Step(s, DeliverHead(l)).Ok? <==> !Misstep(s, DeliverHead(l))
    ensures Step(s, DeliverHead(l)).Ok? ==> Inv(Step(s, DeliverHead(l)).state)
  {
    hide Inv, Deliver;
    var t := SetTurn(s, l, Running(TurnOf(s, l).left - 1));
    TurnKeepsInv(s, l, Running(TurnOf(s, l).left - 1));
    assert Queue(t, l) == Queue(s, l);
    DeliverSucceedsExactly(t, l);
  }

  lemma PollKeepsInv(s: State, l: nat, ready: set<nat>)
    requires Inv(s) && Enabled(s, Poll(l, ready))
    ensures Step(s, Poll(l, ready)).Ok? && Inv(Step(s, Poll(l, ready)).state)
  {
    hide Inv;
    TurnKeepsInv(s, l, Handling);
    ReportKeepsInv(SetTurn(s, l, Handling), l, ready);
  }

  lemma DrainedKeepsInv(s: State, c: nat)
    requires Inv(s) && Enabled(s, Drained(c))
    ensures SetInterest(s, c, s.conns[c].read, false).Ok? && Inv(SetInterest(s, c, s.conns[c].read, false).state)
  {
    assert Set(s, c, s.conns[c]) == s;
    InterestKeepsInv(s, c, s.conns[c], s.conns[c].read, false);
  }
}
