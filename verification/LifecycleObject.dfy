/** `TcpServerff` and the connections and loops around it, changed in place.  The asserts of the code stand in the
    method bodies as assertions; every method does exactly what its operation in module Lifecycle does. */
module LifecycleObject {
  import opened Common
  import opened Lifecycle
  import opened LifecycleTheorems

  class TcpServerff {
    var connections: set<nat>
    var nextConnId: nat
    var conns: map<nat, Conn>              // the connection objects
    var queues: map<nat, seq<Message>>     // pending functors of each loop
    var channels: map<(nat, nat), nat>     // Pollerff::channels_ of each loop
    var open: set<nat>
    var reported: set<nat>                 // active channels not yet handled
    var turns: map<nat, Turn>              // what each loop is doing

    ghost function View(): State
      reads this
    {
      State(conns, nextConnId, connections, queues, channels, open, reported, turns)
    }

    constructor ()
      ensures View() == Init() && Inv(View())
    {
      connections, nextConnId, conns, queues, channels, open := {}, 1, map[], map[], map[], {};
      reported, turns := {}, map[];
      new;
      InitInv();
    }

    /** `queueInLoop`. */
    method QueueInLoop(loop: nat, m: Message)
      modifies this`queues
      ensures View() == Post(old(View()), loop, m)
    {
      queues := queues[loop := (if loop in queues then queues[loop] else []) + [m]];
    }

    method SetConn(c: nat, k: Conn)
      modifies this`conns
      ensures View() == Set(old(View()), c, k)
    {
      conns := conns[c := k];
    }

    /** `Pollerff::updateChannel`, with its asserts. */
    method UpdateChannel(c: nat, read: bool, write: bool)
      requires c in conns && SetInterest(View(), c, read, write).Ok?
      modifies this`conns, this`channels
      ensures SetInterest(old(View()), c, read, write) == Ok(View()) && c in conns
      ensures conns[c] == old(conns[c]).(read := read, write := write, index := conns[c].index)
    {
      var k := conns[c].(read := read, write := write);
      if k.index.New? || k.index.Deleted? {
        if k.index.New? {
          assert (k.loop, k.fd) !in channels;
          channels := channels[(k.loop, k.fd) := c];
        } else {
          assert (k.loop, k.fd) in channels && channels[(k.loop, k.fd)] == c;
        }
        SetConn(c, k.(index := Added));
      } else {
        assert (k.loop, k.fd) in channels && channels[(k.loop, k.fd)] == c;
        SetConn(c, k.(index := if !k.read && !k.write then Deleted else Added));
      }
    }

    method ConnectionEstablished(c: nat)
      requires c in conns && Lifecycle.ConnectionEstablished(View(), c).Ok?
      modifies this
      ensures Lifecycle.ConnectionEstablished(old(View()), c) == Ok(View())
      ensures c in conns && conns[c].state == Connected && conns[c].read
    {
      hide SetInterest;
      assert conns[c].state == Connecting;
      SetConn(c, conns[c].(state := Connected));
      SetConn(c, conns[c].(log := conns[c].log + [Established]));
      UpdateChannel(c, true, conns[c].write);
    }

    /** A descriptor from the acceptor. */
    method NewConnection(fd: nat, ioLoop: nat) returns (c: nat)
      requires Inv(View()) && fd !in open
      modifies this
      ensures Inv(View()) && Lifecycle.NewConnection(old(View()), fd, ioLoop) == Ok(View())
      ensures c !in old(conns) && c in conns && connections == old(connections) + {c}
      ensures conns[c].fd == fd && conns[c].loop == ioLoop
      ensures if ioLoop == MAIN then conns[c].state == Connected && conns[c].read
              else conns[c].state == Connecting && Queue(View(), ioLoop) == Queue(old(View()), ioLoop) + [Establish(c)]
    {
      ghost var start := View();
      AcceptKeepsInv(start, fd, ioLoop);
      AcceptMakes(start, fd, ioLoop);
      AcceptStep(start, fd, ioLoop);
      c := RegisterNew(fd, ioLoop);
      hide Inv, Lifecycle.ConnectionEstablished, Step;
      if ioLoop == MAIN {
        ConnectionEstablished(c);
      } else {
        QueueInLoop(ioLoop, Establish(c));
      }
    }

    /** The new object under its new name, in the map. */
    method RegisterNew(fd: nat, ioLoop: nat) returns (c: nat)
      modifies this`nextConnId, this`conns, this`connections, this`open
      ensures c == old(nextConnId) && View() == Accepting(old(View()), fd, ioLoop)
    {
      c := nextConnId;
      nextConnId := nextConnId + 1;
      conns := conns[c := Conn(fd, ioLoop, Connecting, false, false, false, New, [Accepted], false, false)];
      connections := connections + {c};
      open := open + {fd};
    }

    /** `handleClose` up to the connection callback. */
    method HandleClose(c: nat)
      requires Inv(View()) && c in conns && (conns[c].state.Connected? || conns[c].state.Disconnecting?)
      modifies this
      ensures Inv(View()) && BeginClose(old(View()), c) == Ok(View())
      ensures c in conns && conns[c].closing && conns[c].state == Disconnected && !conns[c].read && !conns[c].write
    {
      StageOfOpen(View(), c);
      BeginCloseKeepsInv(View(), c);
      StagesGiveMirror(View());
      assert StageOk(conns[c], c in connections);
      BeginCloseShape(View(), c);
      hide SetInterest, Inv, Mirror, StageOk;
      SetConn(c, conns[c].(state := Disconnected, closing := true));
      SetConn(c, conns[c].(log := conns[c].log + [Closed]));
      UpdateChannel(c, false, false);
    }

    /** `handleRead` of the next entry of an active list.  End of file finds the connection open exactly if
        nothing has closed it since the poll. */
    method HandleRead(c: nat, bytes: nat)
      requires Inv(View()) && Enabled(View(), Readable(c))
      requires bytes == 0 ==> !conns[c].state.Disconnected?
      modifies this
      ensures Inv(View())
      ensures Step(old(View()), if bytes > 0 then Readable(c) else EndOfFile(c)) == Ok(View())
    {
      UnreportKeepsInv(View(), c);
      assert !conns[c].state.Connecting? by { assert StageOk(conns[c], c in connections); }
      ReadSteps(View(), c);
      hide Inv, BeginClose, Step;
      reported := reported - {c};
      if bytes == 0 {
        HandleClose(c);
      }
    }

    /** `forceClose`: on the loop thread it is carried out at once. */
    method ForceClose(c: nat)
      requires Inv(View()) && c in conns && !conns[c].state.Connecting? && !conns[c].released
      modifies this
      ensures Inv(View()) && Act(old(View()), c, Action.ForceClose) == Ok(View())
    {
      hide Inv, BeginClose;
      if conns[c].state == Connected || conns[c].state == Disconnecting {
        HandleClose(c);
      }
    }

    method StartReadInLoop(c: nat)
      requires Inv(View()) && Enabled(View(), User(c, StartRead))
      modifies this
      ensures Inv(View()) && Act(old(View()), c, StartRead) == Ok(View())
      ensures c in conns && conns[c].read && conns[c].reading
    {
      ActKeepsInv(View(), c, StartRead);
      hide Inv, SetInterest;
      if !conns[c].reading || !OnlyReading(conns[c]) {
        SetConn(c, conns[c].(reading := true));
        UpdateChannel(c, true, conns[c].write);
      }
    }

    method StopReadInLoop(c: nat)
      requires Inv(View()) && Enabled(View(), User(c, StopRead))
      modifies this
      ensures Inv(View()) && Act(old(View()), c, StopRead) == Ok(View())
      ensures c in conns && !conns[c].reading
      ensures conns[c].read <==> old(conns[c].read && conns[c].write && !conns[c].reading)
    {
      ActKeepsInv(View(), c, StopRead);
      hide Inv, SetInterest;
      if conns[c].reading || OnlyReading(conns[c]) {
        SetConn(c, conns[c].(reading := false));
        UpdateChannel(c, false, conns[c].write);
      }
    }

    /** `removeConnectionInLoop`, with the assert on the erase count. */
    method RemoveConnectionInLoop(c: nat)
      requires c in conns && RemoveInLoop(View(), c).Ok?
      modifies this
      ensures RemoveInLoop(old(View()), c) == Ok(View())
    {
      var n := if c in connections then 1 else 0;
      assert n == 1;
      connections := connections - {c};
      SetConn(c, conns[c].(log := conns[c].log + [Erased]));
      QueueInLoop(conns[c].loop, Destroy(c));
    }

    /** The close callback, `removeConnection`: run at once on the main loop, queued from any other. */
    method RemoveConnection(c: nat)
      requires Inv(View()) && c in conns && conns[c].closing
      modifies this
      ensures Inv(View()) && FinishClose(old(View()), c) == Ok(View())
    {
      FinishCloseKeepsInv(View(), c);
      SetConn(c, conns[c].(closing := false));
      if conns[c].loop == MAIN {
        RemoveConnectionInLoop(c);
      } else {
        QueueInLoop(MAIN, Remove(c));
      }
    }

    method ConnectionDestroy(c: nat)
      requires c in conns && Lifecycle.ConnectionDestroy(View(), c).Ok?
      modifies this
      ensures Lifecycle.ConnectionDestroy(old(View()), c) == Ok(View())
    {
      hide SetInterest;
      if conns[c].state == Connected {
        SetConn(c, conns[c].(state := Disconnected));
        UpdateChannel(c, false, false);
      }
      assert !conns[c].read && !conns[c].write;
      assert (conns[c].loop, conns[c].fd) in channels && channels[(conns[c].loop, conns[c].fd)] == c;
      channels := channels - {(conns[c].loop, conns[c].fd)};
      SetConn(c, conns[c].(index := New, log := conns[c].log + [Destroyed]));
    }

    /** `functors.swap(pendingFunctors_)`. */
    method SwapFunctors(l: nat)
      requires Inv(View()) && Enabled(View(), Event.SwapFunctors(l))
      modifies this`turns
      ensures Inv(View()) && Step(old(View()), Event.SwapFunctors(l)) == Ok(View())
    {
      hide Inv;
      TurnKeepsInv(View(), l, Running(|Queue(View(), l)|));
      turns := turns[l := Running(if l in queues then |queues[l]| else 0)];
    }

    /** A loop runs the next of the functors it has swapped out. */
    method RunFunctor(l: nat)
      requires Inv(View()) && Enabled(View(), DeliverHead(l)) && !Misstep(View(), DeliverHead(l))
      modifies this
      ensures Inv(View())
      ensures Step(old(View()), DeliverHead(l)) == Ok(View())
    {
      hide Inv;
      StepSucceedsExactly(View(), DeliverHead(l));
      assert l in turns;
      turns := turns[l := Running(turns[l].left - 1)];
      Deliver(l);
    }

    method Deliver(l: nat)
      requires Queue(View(), l) != [] && Queue(View(), l)[0].conn in conns && Lifecycle.Deliver(View(), l).Ok?
      modifies this
      ensures Lifecycle.Deliver(old(View()), l) == Ok(View())
    {
      hide Lifecycle.ConnectionEstablished, RemoveInLoop, Lifecycle.ConnectionDestroy;
      var m := queues[l][0];
      queues := queues[l := queues[l][1..]];
      match m
      case Establish(c) => ConnectionEstablished(c);
      case Remove(c) => RemoveConnectionInLoop(c);
      case Destroy(c) => ConnectionDestroy(c);
    }
  }

  lemma AcceptStep(s: State, fd: nat, loop: nat)
    requires fd !in s.open
    ensures Step(s, Accept(fd, loop)) == NewConnection(s, fd, loop)
    ensures NewConnection(s, fd, loop) ==
            if loop == MAIN then Lifecycle.ConnectionEstablished(Accepting(s, fd, loop), s.nextId)
            else Ok(Post(Accepting(s, fd, loop), loop, Establish(s.nextId)))
  {
  }

  lemma ReadSteps(s: State, c: nat)
    requires Enabled(s, Readable(c))
    ensures Step(s, Readable(c)) == Ok(Unreport(s, c))
    ensures Step(s, EndOfFile(c)) == BeginClose(Unreport(s, c), c)
  {
  }
}
