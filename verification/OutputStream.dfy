/** The output side of a connection, net/TcpConnectionff.cpp: direct writes, the output buffer, write interest
    and the half-close.  Sockets are replaced by whatever `write` may return.  Asserts are compiled out here,
    as in the release build; `assert(remaining<len)` would fail, see `RemainingAssertExactly`. */
module OutputStream {
  import opened Common
  import opened Buffer

  /** `write`: some bytes taken, EWOULDBLOCK or EAGAIN, EPIPE or ECONNRESET, any other error. */
  datatype WriteResult = Wrote(n: nat) | WouldBlock | Broken | OtherError

  datatype State = State(
    state: ConnState,
    read: bool,                  // interest bits of the channel
    write: bool,
    output: seq<Byte>,           // outputBuffer_
    wire: seq<Byte>,             // every byte the kernel has taken
    accepted: seq<Byte>,         // every byte of every send that did not break
    shut: bool,                  // the write side has been shut down
    completed: nat,              // write-complete callbacks queued
    overflowed: nat)             // high-water callbacks queued

  /** `isWriting()` tests the interest set for equality, not the bit. */
  predicate IsWriting(s: State) {
    s.write && !s.read
  }

  /** `sendInLoop` writes at once only if nothing is waiting. */
  predicate Direct(s: State) {
    !IsWriting(s) && s.output == []
  }

  predicate Possible(r: WriteResult, len: nat) {
    r.Wrote? ==> r.n <= len
  }

  /** How many bytes the kernel took at once. */
  function Taken(s: State, r: WriteResult): nat {
    if Direct(s) && r.Wrote? then r.n else 0
  }

  predicate Faulted(s: State, r: WriteResult) {
    Direct(s) && r.Broken?
  }

  /** `sendInLoop` of `data`; `mark` is the high-water mark, if a callback is set. */
  function SendInLoop(s: State, data: seq<Byte>, r: WriteResult, mark: Option<nat>): State
    requires Possible(r, |data|)
  {
    if s.state.Disconnected? then s else
    var nwrite := Taken(s, r);
    var t := s.(wire := s.wire + data[..nwrite],
                completed := s.completed + if Direct(s) && r.Wrote? && nwrite == |data| then 1 else 0);
    if Faulted(s, r) then t
    else if nwrite == |data| then t.(accepted := s.accepted + data)
    else t.(
      accepted := s.accepted + data,
      overflowed := s.overflowed + if CrossesMark(|s.output|, |data| - nwrite, mark) then 1 else 0,
      output := s.output + data[nwrite..],
      write := true)
  }

  predicate CrossesMark(oldLen: nat, remaining: nat, mark: Option<nat>) {
    mark.Some? && oldLen < mark.value <= oldLen + remaining
  }

  /** `send` from the loop thread. */
  function Send(s: State, data: seq<Byte>, r: WriteResult, mark: Option<nat>): State
    requires Possible(r, |data|)
  {
    if s.state.Connected? then SendInLoop(s, data, r, mark) else s
  }

  /** `shutdownInLoop`. */
  function ShutdownInLoop(s: State): State {
    if IsWriting(s) then s else s.(shut := true)
  }

  /** `handleWrite`. */
  function HandleWrite(s: State, r: WriteResult): State
    requires Possible(r, |s.output|)
  {
    if IsWriting(s) && r.Wrote? && r.n > 0 then
      var t := s.(wire := s.wire + s.output[..r.n], output := s.output[r.n..]);
      if t.output != [] then t
      else
        var u := t.(write := false, completed := s.completed + 1);
        if s.state.Disconnecting? then ShutdownInLoop(u) else u
    else s
  }

  /** `shutdown`. */
  function Shutdown(s: State): State {
    if s.state.Connected? then ShutdownInLoop(s.(state := Disconnecting)) else s
  }

  datatype Event =
    | SendData(data: seq<Byte>, result: WriteResult, mark: Option<nat>)
    | QueuedSend(data: seq<Byte>, result: WriteResult, mark: Option<nat>)   // `sendInLoop` queued by another thread
    | Writable(result: WriteResult)
    | HalfClose
    | Established
    | SetReading(on: bool)
    | Close

  /** What a write can return: at most what was asked for, and EPIPE once the write side is shut. */
  predicate KernelMay(s: State, r: WriteResult, len: nat) {
    Possible(r, len) && (s.shut ==> r.Broken?)
  }

  predicate Enabled(s: State, e: Event) {
    match e
    case SendData(data, r, _) => KernelMay(s, r, |data|)
    case QueuedSend(data, r, _) => KernelMay(s, r, |data|)
    case Writable(r) => KernelMay(s, r, |s.output|)
    case Established => s.state.Connecting?
    case SetReading(_) => !s.state.Disconnected?
    case _ => true
  }

  /** A step that is not enabled does nothing. */
  function Step(s: State, e: Event): State {
    if !Enabled(s, e) then s else
    match e
    case SendData(data, r, mark) => Send(s, data, r, mark)
    case QueuedSend(data, r, mark) => SendInLoop(s, data, r, mark)
    case Writable(r) => HandleWrite(s, r)
    case HalfClose => Shutdown(s)
    case Established => s.(state := Connected, read := true)
    case SetReading(on) => s.(read := on)
    case Close => s.(state := Disconnected, read := false, write := false)
  }

  function Run(s: State, es: seq<Event>): State
    decreases |es|
  {
    if es == [] then s else Run(Step(s, es[0]), es[1..])
  }

  function Init(): State {
    State(Connecting, false, false, [], [], [], false, 0, 0)
  }

  // ---------------------------------------------------------------- conservation

  /** What the kernel took, then what waits, is what was accepted; and until the close the write bit is set
      exactly while something waits. */
  predicate Inv(s: State) {
    && s.wire + s.output == s.accepted
    && (!s.state.Disconnected? ==> (s.write <==> s.output != []))
    && (s.state.Disconnected? ==> !s.write && !s.read)
  }

  lemma SendKeepsInv(s: State, data: seq<Byte>, r: WriteResult, mark: Option<nat>)
    requires Inv(s) && Possible(r, |data|)
    ensures Inv(SendInLoop(s, data, r, mark))
  {
    var n := Taken(s, r);
    assert data == data[..n] + data[n..];
    assert s.wire + s.output + data == s.wire + (s.output + data);
    if Direct(s) {
      assert s.wire + [] == s.wire;
      assert (s.wire + data[..n]) + ([] + data[n..]) == s.wire + data;
    } else {
      assert data[..0] == [] && data[0..] == data && s.wire + [] == s.wire;
    }
  }

  lemma HandleWriteKeepsInv(s: State, r: WriteResult)
    requires Inv(s) && Possible(r, |s.output|)
    ensures Inv(HandleWrite(s, r))
  {
    if r.Wrote? {
      assert s.output == s.output[..r.n] + s.output[r.n..];
      assert s.wire + s.output[..r.n] + s.output[r.n..] == s.wire + s.output;
    }
  }

  lemma StepKeepsInv(s: State, e: Event)
    requires Inv(s)
    ensures Inv(Step(s, e))
  {
    if Enabled(s, e) {
      match e
      case SendData(data, r, mark) => SendKeepsInv(s, data, r, mark);
      case QueuedSend(data, r, mark) => SendKeepsInv(s, data, r, mark);
      case Writable(r) => HandleWriteKeepsInv(s, r);
      case _ =>
    }
  }

  /** Nothing waits and the channel does not write: a send goes to the kernel at once. */
  predicate WritesAtOnce(s: State) {
    s.output == [] && !(s.write && !s.read)
  }

  /** An answer the kernel can give to a write of `len` bytes. */
  predicate Heard(s: State, r: WriteResult, len: nat) {
    (r.Wrote? ==> r.n <= len && !s.shut) && (s.shut ==> r.Broken?)
  }

  /** The data of the sends of a run that found the connection open and did not break, in order. */
  function AcceptedBy(s: State, es: seq<Event>): seq<Byte>
    decreases |es|
  {
    if es == [] then []
    else
      var e := es[0];
      var now :=
        if (e.SendData? && s.state.Connected?) || (e.QueuedSend? && !s.state.Disconnected?) then
          if Heard(s, e.result, |e.data|) && !(e.result.Broken? && WritesAtOnce(s)) then e.data else []
        else [];
      now + AcceptedBy(Step(s, e), es[1..])
  }

  lemma {:induction false} RunConserves(s: State, es: seq<Event>)
    requires Inv(s)
    ensures Inv(Run(s, es)) && Run(s, es).accepted == s.accepted + AcceptedBy(s, es)
    decreases |es|
  {
    if es == [] {
      assert s.accepted + [] == s.accepted;
    } else {
      StepKeepsInv(s, es[0]);
      RunConserves(Step(s, es[0]), es[1..]);
      AcceptedStep(s, es[0], AcceptedBy(Step(s, es[0]), es[1..]));
    }
  }

  lemma AcceptedStep(s: State, e: Event, later: seq<Byte>)
    ensures Step(s, e).accepted + later == s.accepted +
      ((if (e.SendData? && s.state.Connected?) || (e.QueuedSend? && !s.state.Disconnected?) then
          if Heard(s, e.result, |e.data|) && !(e.result.Broken? && WritesAtOnce(s)) then e.data else []
        else []) + later)
  {
  }

  /** For every pattern of partial writes, would-blocks, errors and sends, the bytes on the wire followed by
      the output buffer are the concatenation of the sends that did not break; and while the connection is
      open the write bit is set exactly when bytes wait. */
  lemma StreamConserved(es: seq<Event>)
    ensures var s := Run(Init(), es);
            && s.wire + s.output == AcceptedBy(Init(), es)
            && s.wire <= AcceptedBy(Init(), es)
            && (!s.state.Disconnected? ==> (s.write <==> s.output != []))
  {
    RunConserves(Init(), es);
    assert [] + AcceptedBy(Init(), es) == AcceptedBy(Init(), es);
  }

  // ---------------------------------------------------------------- what the equality test costs

  /** Waiting bytes are drained by a writable event exactly when read interest is off. */
  lemma DrainsExactly(s: State, n: nat)
    requires Inv(s) && !s.state.Disconnected? && 0 < n <= |s.output|
    ensures HandleWrite(s, Wrote(n)).wire == s.wire + s.output[..n] <==> !s.read
    ensures s.read ==> HandleWrite(s, Wrote(n)) == s
  {
    assert |s.wire + s.output[..n]| == |s.wire| + n;
  }

  predicate OnlyWritable(es: seq<Event>) {
    forall k :: 0 <= k < |es| ==> es[k].Writable?
  }

  /** So a connection that reads and has bytes waiting stays as it is however often it becomes writable. */
  lemma {:induction false} ReadingBlocksDrain(s: State, es: seq<Event>)
    requires s.read && OnlyWritable(es)
    ensures Run(s, es) == s
    decreases |es|
  {
    if es != [] {
      assert forall k :: 0 <= k < |es| - 1 ==> es[1..][k] == es[k + 1];
      ReadingBlocksDrain(s, es[1..]);
    }
  }

  /** `shutdown` of an open connection waits for the waiting bytes exactly when there are none or read
      interest is off. */
  lemma ShutdownWaitsExactly(s: State)
    requires Inv(s) && s.state.Connected? && !s.shut
    ensures (Shutdown(s).shut ==> s.output == []) <==> (s.output == [] || !s.read)
  {
  }

  /** After the half-close: the write side is shut exactly if nothing is left to write. */
  predicate Draining(s: State) {
    Inv(s) && (s.state.Disconnecting? || s.state.Disconnected?) && (s.shut <==> s.output == [])
  }

  lemma StepKeepsDraining(s: State, e: Event)
    requires Draining(s)
    ensures Draining(Step(s, e))
  {
    StepKeepsInv(s, e);
    if Enabled(s, e) && e.QueuedSend? && s.state.Disconnecting? && s.output != [] {
      assert Step(s, e).output != [];
    }
  }

  lemma {:induction false} RunKeepsDraining(s: State, es: seq<Event>)
    requires Draining(s)
    ensures Draining(Run(s, es))
    decreases |es|
  {
    if es != [] {
      StepKeepsDraining(s, es[0]);
      RunKeepsDraining(Step(s, es[0]), es[1..]);
    }
  }

  /** In every continuation of a `shutdown`, with partial writes, would-blocks, errors, sends still queued by
      other threads, changes of read interest and the close, the write side is shut exactly when everything
      accepted is on the wire, if and only if nothing was waiting at the time of the call or read interest was
      off. */
  lemma DrainThenShut(s: State)
    requires Inv(s) && s.state.Connected? && !s.shut
    ensures (forall es :: var f := Run(Shutdown(s), es); f.shut <==> f.wire == f.accepted)
            <==> (s.output == [] || !s.read)
  {
    var t := Shutdown(s);
    if s.output == [] || !s.read {
      assert Draining(t);
      forall es ensures var f := Run(t, es); f.shut <==> f.wire == f.accepted {
        RunKeepsDraining(t, es);
        AllOnWire(Run(t, es));
      }
    } else {
      AllOnWire(t);
      assert t.output != [] && t.shut;
      assert Run(t, []) == t;
      assert !(Run(Shutdown(s), []).shut <==> Run(Shutdown(s), []).wire == Run(Shutdown(s), []).accepted);
    }
  }

  lemma AllOnWire(s: State)
    requires s.wire + s.output == s.accepted
    ensures s.output == [] <==> s.wire == s.accepted
  {
    assert |s.wire| + |s.output| == |s.accepted|;
    if s.output == [] {
      assert s.wire + [] == s.wire;
    }
  }

  /** And with read interest off a write that takes the rest gets there. */
  lemma LastWriteShuts(s: State)
    requires Draining(s) && s.state.Disconnecting? && !s.read && s.output != []
    ensures var f := HandleWrite(s, Wrote(|s.output|)); f.shut && f.wire == s.accepted
  {
    assert s.output[..|s.output|] == s.output;
  }

  /** Writable events that each take something, as long as there is something. */
  predicate TakesSomething(s: State, es: seq<Event>)
    decreases |es|
  {
    es == [] ||
      (&& (s.output != [] ==> es[0].Writable? && es[0].result.Wrote? && 0 < es[0].result.n <= |s.output|)
       && (s.output == [] ==> es[0].Writable?)
       && TakesSomething(Step(s, es[0]), es[1..]))
  }

  /** And so the half-close comes: with read interest off, as many such events as bytes are waiting are enough. */
  lemma {:induction false} DrainsInTime(s: State, es: seq<Event>)
    requires Draining(s) && s.state.Disconnecting? && !s.read && TakesSomething(s, es) && |s.output| <= |es|
    ensures var f := Run(s, es); f.shut && f.output == [] && f.wire == s.accepted
    decreases |es|
  {
    if es == [] {
      AllOnWire(s);
    } else {
      var t := Step(s, es[0]);
      StepKeepsDraining(s, es[0]);
      DrainsInTime(t, es[1..]);
    }
  }

  /** `assert(remaining<len)` holds exactly if nothing was waiting and the kernel took at least one byte. */
  lemma RemainingAssertExactly(s: State, data: seq<Byte>, r: WriteResult)
    requires Possible(r, |data|)
    ensures |data| - Taken(s, r) < |data| <==> Direct(s) && r.Wrote? && r.n > 0
  {
  }

  // ---------------------------------------------------------------- each call in plain terms

  /** What a send does, by what the kernel answers. */
  lemma SendEffect(s: State, data: seq<Byte>, r: WriteResult, mark: Option<nat>)
    requires (r.Wrote? ==> r.n <= |data|) && !s.state.Disconnected?
    ensures var t := SendInLoop(s, data, r, mark);
            && (s.output == [] && !(s.write && !s.read) ==>
                 match r
                 case Wrote(n) => t.wire == s.wire + data[..n] && t.output == data[n..]
                 case Broken => t.wire == s.wire && t.output == []
                 case _ => t.wire == s.wire && t.output == data)
            && (s.output != [] || (s.write && !s.read) ==> t.wire == s.wire && t.output == s.output + data)
            && (t.write <==> s.write || t.output != s.output)
            && t.read == s.read && t.state == s.state && t.shut == s.shut
  {
    assert s.wire + data[..0] == s.wire && data[0..] == data && [] + data == data && s.output + [] == s.output;
    if r.Wrote? {
      assert [] + data[r.n..] == data[r.n..];
      assert |s.output + data| == |s.output| + |data|;
    }
  }

  /** What the other events do to the state and the interest. */
  lemma OtherEffects(s: State, e: Event)
    ensures e == Established && s.state.Connecting? ==> Step(s, e) == s.(state := Connected, read := true)
    ensures e.SetReading? && !s.state.Disconnected? ==> Step(s, e) == s.(read := e.on)
    ensures e == Close ==> Step(s, e) == s.(state := Disconnected, read := false, write := false)
    ensures e == HalfClose && s.state.Connected? ==>
              Step(s, e) == s.(state := Disconnecting, shut := s.shut || s.read || !s.write)
    ensures e == HalfClose && !s.state.Connected? ==> Step(s, e) == s
  {
  }

  // ---------------------------------------------------------------- the callbacks queued

  /** How many write-complete callbacks a run queues: one for each send the kernel took whole at once, and one
      for each writable event that took all that was waiting. */
  function CompletedBy(s: State, es: seq<Event>): nat
    decreases |es|
  {
    if es == [] then 0
    else
      var e := es[0];
      var now :=
        match e
        case SendData(data, Wrote(n), _) =>
          if s.state == Connected && !s.shut && s.output == [] && !(s.write && !s.read) && n == |data| then 1 else 0
        case QueuedSend(data, Wrote(n), _) =>
          if s.state != Disconnected && !s.shut && s.output == [] && !(s.write && !s.read) && n == |data| then 1 else 0
        case Writable(Wrote(n)) =>
          if s.write && !s.read && !s.shut && n == |s.output| > 0 then 1 else 0
        case _ => 0;
      now + CompletedBy(Step(s, e), es[1..])
  }

  /** How many bytes of a send are left over to wait. */
  function LeftOver(s: State, data: seq<Byte>, r: WriteResult): nat {
    if s.output == [] && !(s.write && !s.read) then
      match r
      case Wrote(n) => if n <= |data| then |data| - n else 0
      case Broken => 0
      case _ => |data|
    else |data|
  }

  /** How many high-water callbacks: one for each send whose left-over bytes take the waiting ones from below
      the mark to the mark or past it. */
  function OverflowedBy(s: State, es: seq<Event>): nat
    decreases |es|
  {
    if es == [] then 0
    else
      var e := es[0];
      var now :=
        if ((e.SendData? && s.state == Connected) || (e.QueuedSend? && s.state != Disconnected))
           && Heard(s, e.result, |e.data|) && LeftOver(s, e.data, e.result) > 0 && e.mark.Some?
           && |s.output| < e.mark.value && |s.output| + LeftOver(s, e.data, e.result) >= e.mark.value
        then 1 else 0;
      now + OverflowedBy(Step(s, e), es[1..])
  }

  lemma StepCompletes(s: State, e: Event)
    ensures Step(s, e).completed == s.completed +
      match e
      case SendData(data, Wrote(n), _) =>
        if s.state == Connected && !s.shut && s.output == [] && !(s.write && !s.read) && n == |data| then 1 else 0
      case QueuedSend(data, Wrote(n), _) =>
        if s.state != Disconnected && !s.shut && s.output == [] && !(s.write && !s.read) && n == |data| then 1 else 0
      case Writable(Wrote(n)) =>
        if s.write && !s.read && !s.shut && n == |s.output| > 0 then 1 else 0
      case _ => 0
  {
    hide CrossesMark;
    if e.Writable? && e.result.Wrote? && e.result.n <= |s.output| {
      assert |s.output[e.result.n..]| == |s.output| - e.result.n;
    }
  }

  lemma SendOverflows(s: State, data: seq<Byte>, r: WriteResult, mark: Option<nat>)
    requires Possible(r, |data|) && (s.shut ==> r.Broken?)
    ensures SendInLoop(s, data, r, mark).overflowed == s.overflowed +
      if s.state != Disconnected && LeftOver(s, data, r) > 0 && mark.Some?
         && |s.output| < mark.value && |s.output| + LeftOver(s, data, r) >= mark.value
      then 1 else 0
  {
  }

  lemma StepOverflows(s: State, e: Event)
    ensures Step(s, e).overflowed == s.overflowed +
      if ((e.SendData? && s.state == Connected) || (e.QueuedSend? && s.state != Disconnected))
         && Heard(s, e.result, |e.data|) && LeftOver(s, e.data, e.result) > 0 && e.mark.Some?
         && |s.output| < e.mark.value && |s.output| + LeftOver(s, e.data, e.result) >= e.mark.value
      then 1 else 0
  {
    hide SendInLoop, LeftOver;
    if (e.SendData? || e.QueuedSend?) && Heard(s, e.result, |e.data|) {
      SendOverflows(s, e.data, e.result, e.mark);
    }
    hide CrossesMark;
  }

  /** A run queues exactly those callbacks. */
  lemma {:induction false} CallbacksExactly(s: State, es: seq<Event>)
    ensures Run(s, es).completed == s.completed + CompletedBy(s, es)
    ensures Run(s, es).overflowed == s.overflowed + OverflowedBy(s, es)
    decreases |es|
  {
    if es != [] {
      hide Step, Heard, LeftOver;
      StepCompletes(s, es[0]);
      StepOverflows(s, es[0]);
      CallbacksExactly(Step(s, es[0]), es[1..]);
    }
  }
}
