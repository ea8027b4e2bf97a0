/** The output side of a connection as an object over its output buffer, net/TcpConnectionff.cpp, step by
    step.  Each method is the operation of the same name on its view. */
module OutputStreamObject {
  import opened Common
  import opened Buffer
  import opened OutputStream

  class TcpConnectionff {
    var state: ConnState
    var read: bool                     // the two interest bits of connChannel_
    var write: bool
    const outputBuffer: Bufferff
    var shut: bool
    var completed: nat
    var overflowed: nat

    ghost var wire: seq<Byte>          // what the kernel and the callers saw
    ghost var accepted: seq<Byte>

    ghost predicate Valid()
      reads this, outputBuffer
    {
      outputBuffer.Valid()
    }

    ghost function View(): State
      requires Valid()
      reads this, outputBuffer, outputBuffer.buf
    {
      State(state, read, write, outputBuffer.Contents(), wire, accepted, shut, completed, overflowed)
    }

    constructor ()
      ensures Valid() && fresh(outputBuffer) && fresh(outputBuffer.buf) && View() == Init()
    {
      state, read, write := Connecting, false, false;
      outputBuffer := new Bufferff(INITIAL_SIZE);
      shut, completed, overflowed := false, 0, 0;
      wire, accepted := [], [];
    }

    predicate IsWritingNow()
      reads this
    {
      write && !read
    }

    /** `Socket::write`: the kernel takes what `r` says of the front of `data`. */
    method SocketWrite(ghost data: seq<Byte>, r: WriteResult) returns (n: int)
      requires Possible(r, |data|)
      modifies this`wire
      ensures n == if r.Wrote? then r.n else -1
      ensures wire == old(wire) + data[..if r.Wrote? then r.n else 0]
    {
      n := if r.Wrote? then r.n else -1;
      wire := wire + data[..if r.Wrote? then r.n else 0];
    }

    /** The first half of `sendInLoop`: write at once if nothing is waiting. */
    method WriteDirect(data: seq<Byte>, r: WriteResult) returns (nwrite: nat, faultError: bool)
      requires Valid() && Possible(r, |data|)
      modifies this`wire, this`completed
      ensures Valid() && nwrite == Taken(old(View()), r) && faultError == Faulted(old(View()), r)
      ensures wire == old(wire) + data[..nwrite]
      ensures completed == old(completed) + if Direct(old(View())) && r.Wrote? && nwrite == |data| then 1 else 0
    {
      nwrite, faultError := 0, false;
      if !IsWritingNow() && outputBuffer.ReadableBytes() == 0 {
        var n := SocketWrite(data, r);
        if n >= 0 {
          nwrite := n;
          if nwrite == |data| {
            completed := completed + 1;
          }
        } else {
          faultError := r.Broken?;
        }
      }
    }

    /** The second half: keep what is left and ask to be told when the socket is writable. */
    method BufferRest(rest: seq<Byte>, mark: Option<nat>)
      requires Valid()
      modifies this`overflowed, this`write, outputBuffer, outputBuffer.buf
      ensures Valid() && (outputBuffer.buf == old(outputBuffer.buf) || fresh(outputBuffer.buf))
      ensures View() == old(View()).(
        overflowed := old(overflowed) + if CrossesMark(|old(View()).output|, |rest|, mark) then 1 else 0,
        output := old(View()).output + rest,
        write := true)
    {
      var oldLen := outputBuffer.ReadableBytes();
      if mark.Some? && oldLen + |rest| >= mark.value && oldLen < mark.value {
        overflowed := overflowed + 1;
      }
      outputBuffer.Append(rest);
      if !IsWritingNow() {
        write := true;
      }
    }

    method SendInLoop(data: seq<Byte>, r: WriteResult, mark: Option<nat>)
      requires Valid() && Possible(r, |data|)
      modifies this, outputBuffer, outputBuffer.buf
      ensures Valid() && (outputBuffer.buf == old(outputBuffer.buf) || fresh(outputBuffer.buf))
      ensures View() == OutputStream.SendInLoop(old(View()), data, r, mark)
    {
      if state == Disconnected {
        return;
      }
      var nwrite, faultError := WriteDirect(data, r);
      if !faultError {
        accepted := accepted + data;
        if |data| - nwrite > 0 {
          BufferRest(data[nwrite..], mark);
        }
      }
    }

    method Send(data: seq<Byte>, r: WriteResult, mark: Option<nat>)
      requires Valid() && Possible(r, |data|)
      modifies this, outputBuffer, outputBuffer.buf
      ensures Valid() && (outputBuffer.buf == old(outputBuffer.buf) || fresh(outputBuffer.buf))
      ensures View() == OutputStream.Send(old(View()), data, r, mark)
    {
      if state == Connected {
        SendInLoop(data, r, mark);
      }
    }

    method ShutdownInLoop()
      requires Valid()
      modifies this`shut
      ensures Valid() && View() == OutputStream.ShutdownInLoop(old(View()))
    {
      if !IsWritingNow() {
        shut := true;
      }
    }

    method Shutdown()
      requires Valid()
      modifies this`shut, this`state
      ensures Valid() && View() == OutputStream.Shutdown(old(View()))
    {
      if state == Connected {
        state := Disconnecting;
        ShutdownInLoop();
      }
    }

    method HandleWrite(r: WriteResult)
      requires Valid() && Possible(r, outputBuffer.ReadableBytes())
      modifies this, outputBuffer
      ensures Valid() && outputBuffer.buf == old(outputBuffer.buf)
      ensures View() == OutputStream.HandleWrite(old(View()), r)
      ensures completed == old(completed) +
                if old(write && !read) && r.Wrote? && r.n == |old(View()).output| > 0 then 1 else 0
    {
      ghost var waiting := outputBuffer.Contents();
      if IsWritingNow() {
        var n := SocketWrite(waiting, r);
        if n > 0 {
          outputBuffer.Retrieve(n);
          if outputBuffer.ReadableBytes() == 0 {
            write := false;
            completed := completed + 1;
            if state == Disconnecting {
              ShutdownInLoop();
            }
          }
        } else {
          assert wire == old(wire);
        }
      }
    }

    method ConnectionEstablished()
      requires Valid() && state == Connecting
      modifies this`state, this`read
      ensures Valid() && View() == Step(old(View()), Established)
    {
      state := Connected;
      read := true;
    }

    method SetReading(on: bool)
      requires Valid() && state != Disconnected
      modifies this`read
      ensures Valid() && View() == Step(old(View()), Event.SetReading(on))
    {
      read := on;
    }

    /** The part of `handleClose` before its callbacks. */
    method Close()
      requires Valid()
      modifies this`state, this`read, this`write
      ensures Valid() && View() == Step(old(View()), Event.Close)
    {
      state := Disconnected;
      read, write := false, false;
    }

    method Perform(e: Event)
      requires Valid()
      modifies this, outputBuffer, outputBuffer.buf
      ensures Valid() && (outputBuffer.buf == old(outputBuffer.buf) || fresh(outputBuffer.buf))
      ensures View() == Step(old(View()), e)
    {
      match e
      case SendData(data, r, mark) => if Possible(r, |data|) && (shut ==> r.Broken?) { Send(data, r, mark); }
      case QueuedSend(data, r, mark) => if Possible(r, |data|) && (shut ==> r.Broken?) { SendInLoop(data, r, mark); }
      case Writable(r) => if Possible(r, outputBuffer.ReadableBytes()) && (shut ==> r.Broken?) { HandleWrite(r); }
      case HalfClose => Shutdown();
      case Established => if state == Connecting { ConnectionEstablished(); }
      case SetReading(on) => if state != Disconnected { SetReading(on); }
      case Close => Close();
    }

    /** Every run of calls of a fresh connection: the object follows the state machine, so the stream is
        conserved in it. */
    method PerformAll(es: seq<Event>)
      requires Valid() && View() == Init()
      modifies this, outputBuffer, outputBuffer.buf
      ensures Valid() && View() == Run(Init(), es)
      ensures wire + outputBuffer.Contents() == AcceptedBy(Init(), es)
      ensures state != Disconnected ==> (write <==> outputBuffer.Contents() != [])
      ensures completed == CompletedBy(Init(), es) && overflowed == OverflowedBy(Init(), es)
    {
      var i := 0;
      while i < |es|
        invariant 0 <= i <= |es| && Valid() && (outputBuffer.buf == old(outputBuffer.buf) || fresh(outputBuffer.buf))
        invariant Run(View(), es[i..]) == Run(Init(), es)
      {
        assert es[i..][0] == es[i] && es[i..][1..] == es[i + 1..];
        Perform(es[i]);
        i := i + 1;
      }
      StreamConserved(es);
      CallbacksExactly(Init(), es);
    }
  }
}
