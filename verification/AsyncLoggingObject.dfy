/** The class of base/logger/AsyncLoggingff.h with its buffers as heap objects that are handed from field to
    field, refilled and emptied again.  A method is one critical section, or one stretch of the back-end
    thread between two of them.  `Valid` ties the bytes of every buffer to the state machine and keeps every
    buffer in one place only, so that emptying a recycled buffer never loses a line. */
module AsyncLoggingObject {
  import opened Common
  import opened AsyncLogging

  /** The one place a buffer is held in. */
  datatype Slot = Unheld | Current | Next | Filled(i: nat) | Spare1 | Spare2 | ToWrite(i: nat)

  /** The bytes of a buffer that holds these lines. */
  function Text(lines: Buffer): string {
    if lines == [] then "" else Text(lines[..|lines| - 1]) + lines[|lines| - 1]
  }

  lemma {:induction false} TextLength(lines: Buffer)
    ensures |Text(lines)| == Length(lines)
  {
    if lines != [] {
      TextLength(lines[..|lines| - 1]);
    }
  }

  lemma TextOfNone()
    ensures Text([]) == "" && Length([]) == 0
  {
  }

  lemma TextOfMore(lines: Buffer, line: Line)
    ensures Text(lines + [line]) == Text(lines) + line
  {
    assert (lines + [line])[..|lines|] == lines;
  }

  /** FixedBufferff<kLargeBuffer>. */
  class LogBuffer {
    var text: string
    ghost var slot: Slot

    constructor (ghost place: Slot)
      ensures text == "" && slot == place
    {
      text, slot := "", place;
    }

    function Avail(): int
      reads this
    {
      LARGE - |text|
    }

    /** Appends what fits. */
    method Append(line: string)
      requires Avail() >= 0
      modifies this`text
      ensures text == old(text) + if |line| <= old(Avail()) then line else line[..old(Avail())]
    {
      text := text + if |line| <= Avail() then line else line[..Avail()];
    }

    method Reset()
      modifies this`text
      ensures text == ""
    {
      text := "";
    }
  }

  class AsyncLoggingff {
    var currentBuffer: LogBuffer
    var nextBuffer: LogBuffer?
    var buffers: seq<LogBuffer>
    var newBuffer1: LogBuffer?
    var newBuffer2: LogBuffer?
    var bufferToWrite: seq<LogBuffer>
    var running: bool
    var outputFile: seq<string>       // what the file was given, call by call
    ghost var view: State
    ghost var held: set<LogBuffer>

    /** `b` is where it should be and holds the lines `lines`. */
    ghost predicate Holds(b: LogBuffer, slot: Slot, lines: Buffer)
      reads this, held
    {
      b in held && b.slot == slot && b.text == Text(lines)
    }

    ghost predicate HoldsIf(b: LogBuffer?, slot: Slot, lines: Option<Buffer>)
      reads this, held
    {
      if b == null then lines.None? else lines.Some? && Holds(b, slot, lines.value)
    }

    ghost predicate FilledHold()
      reads this, held
    {
      |buffers| == |view.buffers| && forall i :: 0 <= i < |buffers| ==> Holds(buffers[i], Filled(i), view.buffers[i])
    }

    ghost predicate ToWriteHold()
      reads this, held
    {
      && |bufferToWrite| == |view.toWrite|
      && forall i :: 0 <= i < |bufferToWrite| ==> Holds(bufferToWrite[i], ToWrite(i), view.toWrite[i])
    }

    /** The file was given the bytes of the buffers written, in order. */
    ghost predicate FileMatches()
      reads this
    {
      && |outputFile| == |view.file|
      && forall k :: 0 <= k < |outputFile| && view.file[k].Data? ==> outputFile[k] == Text(view.file[k].buffer)
    }

    /** The fields hold what the view says. */
    ghost predicate Agrees()
      reads this, held
    {
      && Holds(currentBuffer, Current, view.current)
      && Length(view.current) <= LARGE
      && HoldsIf(nextBuffer, Next, view.next)
      && HoldsIf(newBuffer1, Spare1, view.new1)
      && HoldsIf(newBuffer2, Spare2, view.new2)
      && FilledHold()
      && ToWriteHold()
      && FileMatches()
      && running == view.running
    }

    ghost predicate Valid()
      reads this, held
    {
      Agrees() && Recycling(view)
    }

    constructor ()
      ensures Valid() && fresh(held) && view == Init()
    {
      currentBuffer := new LogBuffer(Current);
      nextBuffer := new LogBuffer(Next);
      newBuffer1 := new LogBuffer(Spare1);
      newBuffer2 := new LogBuffer(Spare2);
      buffers, bufferToWrite, running, outputFile := [], [], true, [];
      view := Init();
      new;
      TextOfNone();
      hide Text, Length;
      held := {currentBuffer, nextBuffer, newBuffer1, newBuffer2};
    }

    /** `buffers_.push_back(std::move(currentBuffer_))`, and an empty buffer that nothing holds takes its place. */
    method ReplaceCurrent(b: LogBuffer)
      requires Agrees() && b in held && b.slot == Unheld && b.text == ""
      modifies this`buffers, this`currentBuffer, this`view, currentBuffer`slot, b`slot
      ensures Agrees()
      ensures view == old(view).(buffers := old(view).buffers + [old(view).current], current := [])
    {
      TextOfNone();
      hide Text, Length;
      currentBuffer.slot := Filled(|buffers|);
      buffers := buffers + [currentBuffer];
      currentBuffer := b;
      b.slot := Current;
      view := view.(buffers := view.buffers + [view.current], current := []);
    }

    /** An empty buffer for the front: the spare one or, when that is used up, a new one. */
    method TakeSpare() returns (b: LogBuffer)
      requires Valid()
      modifies this`nextBuffer, this`held, this`view, nextBuffer
      ensures Agrees() && fresh(held - old(held))
      ensures b in held && b.slot == Unheld && b.text == "" && (b == old(nextBuffer) || fresh(b))
      ensures view == old(view).(next := None)
    {
      TextOfNone();
      hide Text, Length;
      if nextBuffer != null {
        b := nextBuffer;
        nextBuffer := null;
        b.slot := Unheld;
        view := view.(next := None);
      } else {
        b := new LogBuffer(Unheld);
        held := held + {b};
      }
    }

    /** What fits of the line goes into the current buffer. */
    method AppendHere(line: string)
      requires Agrees()
      modifies this`view, currentBuffer`text
      ensures Agrees()
      ensures view == old(view).(
        current := old(view).current + [Fit(old(view).current, line)], appended := old(view).appended + [line])
    {
      TextLength(view.current);
      TextOfMore(view.current, Fit(view.current, line));
      TextLength(view.current + [Fit(view.current, line)]);
      hide Text, Length;
      currentBuffer.Append(line);
      view := view.(current := view.current + [Fit(view.current, line)], appended := view.appended + [line]);
    }

    method Append(line: string)
      requires Valid()
      modifies this, held
      ensures Valid() && fresh(held - old(held))
      ensures view == AsyncLogging.Append(old(view), line)
    {
      TextLength(view.current);
      hide Text, Length;
      if currentBuffer.Avail() > |line| {
        AppendHere(line);
      } else {
        var empty := TakeSpare();
        ReplaceCurrent(empty);
        AppendHere(line);
      }
    }

    /** The back end's first spare. */
    method TakeFirst() returns (b: LogBuffer)
      requires Valid() && view.pc.Top?
      modifies this`newBuffer1, this`view, newBuffer1
      ensures Agrees() && b in held && b.slot == Unheld && b.text == "" && b == old(newBuffer1)
      ensures view == old(view).(new1 := None)
    {
      TextOfNone();
      hide Text, Length;
      b := newBuffer1;
      newBuffer1 := null;
      b.slot := Unheld;
      view := view.(new1 := None);
    }

    /** `bufferToWrite.swap(buffers_)`. */
    method SwapVectors()
      requires Agrees() && bufferToWrite == []
      modifies this, held
      ensures Agrees() && held == old(held)
      ensures view == old(view).(toWrite := old(view).buffers, buffers := [])
    {
      hide Text, Length;
      buffers, bufferToWrite := bufferToWrite, buffers;
      forall i | 0 <= i < |bufferToWrite| {
        bufferToWrite[i].slot := ToWrite(i);
      }
      view := view.(toWrite := view.buffers, buffers := []);
    }

    /** The second spare goes to the front if the front has used up its own. */
    method RefillNext()
      requires Agrees() && newBuffer2 != null
      modifies this, held
      ensures Agrees() && held == old(held)
      ensures view == old(view).(
        next := if old(view).next.Some? then old(view).next else old(view).new2,
        new2 := if old(view).next.Some? then old(view).new2 else None,
        pc := Swapped)
    {
      if nextBuffer == null {
        nextBuffer := newBuffer2;
        nextBuffer.slot := Next;
        newBuffer2 := null;
        view := view.(next := view.new2, new2 := None);
      }
      view := view.(pc := Swapped);
    }

    /** The back end's critical section. */
    method EnterSwap()
      requires Valid() && view.pc.Top?
      modifies this, held
      ensures Valid() && held == old(held)
      ensures view == Swap(old(view))
    {
      var empty := TakeFirst();
      ReplaceCurrent(empty);
      SwapVectors();
      RefillNext();
    }

    /** The check for a backlog.  `notice` is the text of the notice, whatever the clock says. */
    method CheckExcess(notice: string)
      requires Valid() && view.pc.Swapped?
      modifies this
      ensures Valid() && held == old(held)
      ensures view == DropExcess(old(view))
    {
      if |bufferToWrite| > MAX_WAITING {
        outputFile := outputFile + [notice];
        bufferToWrite := bufferToWrite[..2];
      }
      view := DropExcess(view);
    }

    /** One turn of the loop that writes. */
    method WriteNext(i: nat)
      requires Valid() && view.pc.Writing? && i == view.pc.written < |bufferToWrite|
      modifies this`outputFile, this`view
      ensures Valid() && view == WriteOne(old(view))
    {
      outputFile := outputFile + [bufferToWrite[i].text];
      view := WriteOne(view);
    }

    /** `newBuffer1=std::move(bufferToWrite.back())`, then `reset`. */
    method TakeBackFirst()
      requires Agrees() && newBuffer1 == null && bufferToWrite != []
      modifies this, held
      ensures Agrees() && held == old(held) && newBuffer1 != null
      ensures view == old(view).(new1 := Some([]), toWrite := old(view).toWrite[..|old(view).toWrite| - 1])
    {
      TextOfNone();
      hide Text, Length;
      newBuffer1 := bufferToWrite[|bufferToWrite| - 1];
      bufferToWrite := bufferToWrite[..|bufferToWrite| - 1];
      newBuffer1.Reset();
      newBuffer1.slot := Spare1;
      view := view.(new1 := Some([]), toWrite := view.toWrite[..|view.toWrite| - 1]);
    }

    method TakeBackSecond()
      requires Agrees() && newBuffer2 == null && bufferToWrite != []
      modifies this, held
      ensures Agrees() && held == old(held) && newBuffer2 != null
      ensures view == old(view).(new2 := Some([]), toWrite := old(view).toWrite[..|old(view).toWrite| - 1])
    {
      TextOfNone();
      hide Text, Length;
      newBuffer2 := bufferToWrite[|bufferToWrite| - 1];
      bufferToWrite := bufferToWrite[..|bufferToWrite| - 1];
      newBuffer2.Reset();
      newBuffer2.slot := Spare2;
      view := view.(new2 := Some([]), toWrite := view.toWrite[..|view.toWrite| - 1]);
    }

    /** The end of `bufferToWrite` goes away. */
    method Release(n: nat)
      requires Agrees() && n <= |bufferToWrite|
      modifies this`bufferToWrite, this`view
      ensures Agrees() && view == old(view).(toWrite := old(view).toWrite[..n]) && |bufferToWrite| == n
    {
      hide Text, Length;
      bufferToWrite := bufferToWrite[..n];
      view := view.(toWrite := view.toWrite[..n]);
    }

    /** The rest goes away, and the turn is over. */
    method EndTurn(ghost turn: Cycle)
      requires Agrees()
      modifies this`bufferToWrite, this`view
      ensures Agrees()
      ensures view == old(view).(toWrite := [], cycles := old(view).cycles + [turn], pc := AtTest)
    {
      hide Text, Length;
      bufferToWrite := [];
      view := view.(toWrite := [], cycles := view.cycles + [turn], pc := AtTest);
    }

    lemma Shape()
      requires Agrees()
      ensures newBuffer1 == null <==> view.new1.None?
      ensures newBuffer2 == null <==> view.new2.None?
      ensures |bufferToWrite| == |view.toWrite|
    {
    }

    /** The end of a turn: two written buffers are emptied and become the spares. */
    method TakeBack()
      requires Valid() && view.pc.Writing? && view.pc.written == |bufferToWrite|
      modifies this, held
      ensures Valid() && held == old(held)
      ensures view == Recycle(old(view))
    {
      ghost var turn := Cycle(view.toWrite, view.pc.dropped);
      Shape();
      hide Agrees, Valid;
      if |bufferToWrite| > 2 {
        Release(2);
      }
      Shape();
      if newBuffer1 == null {
        TakeBackFirst();
      }
      Shape();
      if newBuffer2 == null {
        TakeBackSecond();
      }
      EndTurn(turn);
      FromAgrees();
    }

    lemma FromAgrees()
      requires Agrees() && Recycling(view)
      ensures Valid()
    {
    }

    /** `while(running_)`. */
    method TestRunning() returns (again: bool)
      requires Valid() && view.pc.AtTest?
      modifies this`view
      ensures Valid() && view == Step(old(view), Event.TestRunning) && again == running
      ensures view.pc == if again then Top else Finished
    {
      again := running;
      view := Step(view, Event.TestRunning);
    }

    method Stop()
      requires Valid()
      modifies this`running, this`view
      ensures Valid() && view == Step(old(view), Event.Stop) && !running
    {
      running := false;
      view := Step(view, Event.Stop);
    }
  }
}
