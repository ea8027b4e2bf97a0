/** The double-buffered logger of base/logger/AsyncLoggingff.cpp, as interleaved critical sections.

    Front-end threads append lines under the mutex; the back-end thread takes the filled buffers under the
    same mutex and writes them to the file outside it.  A buffer is modelled as the list of lines it holds, so
    that "whole lines, in order" can be said.  The timed wait may return at any moment, so the back end may
    enter its critical section at any moment. */
module AsyncLogging {
  import opened Common

  /** kLargeBuffer. */
  const LARGE: nat := 4_000_000

  /** More waiting buffers than this and the back end throws some away. */
  const MAX_WAITING: nat := 25

  type Line = seq<char>
  type Buffer = seq<Line>

  /** What the log file receives: the bytes of a buffer, or the notice that says how many buffers were dropped. */
  datatype Chunk = Data(buffer: Buffer) | Notice(buffers: nat)

  /** One completed turn of the back end: what it wrote and what it threw away. */
  datatype Cycle = Cycle(kept: seq<Buffer>, dropped: seq<Buffer>)

  /** Where the back-end thread is. */
  datatype Pc =
    | AtTest                                       // about to test `running_`
    | Top                                          // before its critical section
    | Swapped                                      // after it, before the check for too many buffers
    | Writing(written: nat, dropped: seq<Buffer>)  // `written` of `toWrite` are in the file
    | Finished

  datatype State = State(
    current: Buffer,
    next: Option<Buffer>,
    buffers: seq<Buffer>,
    new1: Option<Buffer>,
    new2: Option<Buffer>,
    toWrite: seq<Buffer>,
    running: bool,
    pc: Pc,
    file: seq<Chunk>,
    appended: seq<Line>,     // every line ever passed to `append`
    cycles: seq<Cycle>)

  function Length(b: Buffer): nat {
    if b == [] then 0 else Length(b[..|b| - 1]) + |b[|b| - 1]|
  }

  function Avail(b: Buffer): int {
    LARGE - Length(b)
  }

  /** `FixedBufferff::append` stores what fits. */
  function Fit(b: Buffer, line: Line): Line {
    if |line| <= Avail(b) then line else if Avail(b) <= 0 then [] else line[..Avail(b)]
  }

  /** A line cut to the size of a whole buffer. */
  function Clip(line: Line): Line {
    if |line| <= LARGE then line else line[..LARGE]
  }

  function Clipped(lines: seq<Line>): seq<Line> {
    if lines == [] then [] else Clipped(lines[..|lines| - 1]) + [Clip(lines[|lines| - 1])]
  }

  // ---------------------------------------------------------------- the critical sections

  /** `append`. */
  function Append(s: State, line: Line): State {
    var t := s.(appended := s.appended + [line]);
    if Avail(s.current) > |line| then
      t.(current := s.current + [Fit(s.current, line)])
    else
      var empty := if s.next.Some? then s.next.value else [];
      t.(buffers := s.buffers + [s.current],
         current := empty + [Fit(empty, line)],
         next := None)
  }

  /** The back end's critical section. */
  function Swap(s: State): State
    requires s.new1.Some? && s.toWrite == []
  {
    s.(toWrite := s.buffers + [s.current],
       buffers := [],
       current := s.new1.value,
       new1 := None,
       next := if s.next.Some? then s.next else s.new2,
       new2 := if s.next.Some? then s.new2 else None,
       pc := Swapped)
  }

  /** Too many buffers: a notice goes to the file and all but two buffers go away. */
  function DropExcess(s: State): State {
    if |s.toWrite| > MAX_WAITING then
      s.(file := s.file + [Notice(|s.toWrite| - 2)],
         toWrite := s.toWrite[..2],
         pc := Writing(0, s.toWrite[2..]))
    else s.(pc := Writing(0, []))
  }

  function WriteOne(s: State): State
    requires s.pc.Writing? && s.pc.written < |s.toWrite|
  {
    s.(file := s.file + [Data(s.toWrite[s.pc.written])], pc := s.pc.(written := s.pc.written + 1))
  }

  /** What `bufferToWrite` holds when its buffers are taken back. */
  function Spares(s: State): nat {
    if |s.toWrite| > 2 then 2 else |s.toWrite|
  }

  /** Two written buffers become the empty spares of the next turn.  The two requirements are the asserts of
      the code. */
  function Recycle(s: State): State
    requires s.pc.Writing?
    requires s.new1.None? ==> Spares(s) > 0
    requires s.new2.None? ==> Spares(s) > (if s.new1.None? then 1 else 0)
  {
    s.(new1 := Some(if s.new1.None? then [] else s.new1.value),
       new2 := Some(if s.new2.None? then [] else s.new2.value),
       toWrite := [],
       cycles := s.cycles + [Cycle(s.toWrite, s.pc.dropped)],
       pc := AtTest)
  }

  // ---------------------------------------------------------------- runs

  datatype Event = AppendLine(line: Line) | Stop | TestRunning | EnterSwap | CheckExcess | WriteNext | TakeBack

  predicate Enabled(s: State, e: Event) {
    match e
    case AppendLine(_) => true
    case Stop => true
    case TestRunning => s.pc.AtTest?
    case EnterSwap => s.pc.Top?
    case CheckExcess => s.pc.Swapped?
    case WriteNext => s.pc.Writing? && s.pc.written < |s.toWrite|
    case TakeBack => s.pc.Writing? && s.pc.written == |s.toWrite|
  }

  /** A step that is not enabled does nothing. */
  function Step(s: State, e: Event): State
    requires Recycling(s)
  {
    if !Enabled(s, e) then s else
    match e
    case AppendLine(line) => Append(s, line)
    case Stop => s.(running := false)
    case TestRunning => s.(pc := if s.running then Top else Finished)
    case EnterSwap => Swap(s)
    case CheckExcess => DropExcess(s)
    case WriteNext => WriteOne(s)
    case TakeBack => Recycle(s)
  }

  function Init(): State {
    State([], Some([]), [], Some([]), Some([]), [], true, AtTest, [], [], [])
  }

  // ---------------------------------------------------------------- recycling never runs dry

  /** Both spares are there and empty whenever the back end is not between its critical section and the end of
      its turn; a front end that has used up the spare buffer has left a filled one. */
  predicate Recycling(s: State) {
    && (s.next.Some? ==> s.next.value == [])
    && (s.next.None? ==> s.buffers != [])
    && (s.new1.Some? ==> s.new1.value == [])
    && (s.new2.Some? ==> s.new2.value == [])
    && (s.pc.AtTest? || s.pc.Top? ==> s.new1.Some? && s.new2.Some? && s.toWrite == [])
    && (s.pc.Swapped? || s.pc.Writing? ==>
      s.new1.None? && |s.toWrite| >= (if s.new2.None? then 2 else 1))
    && (s.pc.Writing? ==> s.pc.written <= |s.toWrite|)
  }

  lemma StepKeepsRecycling(s: State, e: Event)
    requires Recycling(s)
    ensures Recycling(Step(s, e))
  {
  }

  function Run(s: State, es: seq<Event>): (r: State)
    requires Recycling(s)
    ensures Recycling(r)
    decreases |es|
  {
    if es == [] then s else
      StepKeepsRecycling(s, es[0]);
      Run(Step(s, es[0]), es[1..])
  }

  /** How many buffer objects are held. */
  function LiveBuffers(s: State): nat {
    1 + (if s.next.Some? then 1 else 0) + |s.buffers| + (if s.new1.Some? then 1 else 0)
      + (if s.new2.Some? then 1 else 0) + |s.toWrite|
  }

  /** In every interleaving, at the top of each turn of the back end both spare buffers are present and empty,
      and at most four buffers exist besides the filled ones waiting; and after its critical section there is
      always something to write and enough written buffers to refill the spares. */
  lemma RecyclingNeverRunsDry(es: seq<Event>)
    ensures var s := Run(Init(), es);
            && (s.pc.Top? ==> s.new1 == Some([]) && s.new2 == Some([]) && s.toWrite == [])
            && (s.pc.Top? ==> LiveBuffers(s) <= 4 + |s.buffers|)
            && (s.pc.Swapped? || s.pc.Writing? ==> s.toWrite != [])
            && (s.pc.Swapped? || s.pc.Writing? ==>
                 Spares(s) >= (if s.new1.None? then 1 else 0) + (if s.new2.None? then 1 else 0))
  {
  }

  // ---------------------------------------------------------------- no line is lost silently

  function Flatten(bs: seq<Buffer>): seq<Line> {
    if bs == [] then [] else Flatten(bs[..|bs| - 1]) + bs[|bs| - 1]
  }

  /** The lines a list of turns took, in the order they were appended. */
  function Taken(cs: seq<Cycle>): seq<Line> {
    if cs == [] then []
    else Taken(cs[..|cs| - 1]) + (Flatten(cs[|cs| - 1].kept) + Flatten(cs[|cs| - 1].dropped))
  }

  function AsData(bs: seq<Buffer>): seq<Chunk> {
    seq(|bs|, i requires 0 <= i < |bs| => Data(bs[i]))
  }

  function NoticeFor(dropped: seq<Buffer>): seq<Chunk> {
    if dropped == [] then [] else [Notice(|dropped|)]
  }

  /** What those turns put in the file. */
  function Rendered(cs: seq<Cycle>): seq<Chunk> {
    if cs == [] then []
    else Rendered(cs[..|cs| - 1]) + (NoticeFor(cs[|cs| - 1].dropped) + AsData(cs[|cs| - 1].kept))
  }

  /** Buffers are dropped only from a backlog of more than 25, and then all but the first two. */
  predicate DropRule(kept: seq<Buffer>, dropped: seq<Buffer>) {
    if dropped == [] then |kept| <= 25 else |kept| == 2 && |kept| + |dropped| > 25
  }

  function DroppedNow(s: State): seq<Buffer> {
    if s.pc.Writing? then s.pc.dropped else []
  }

  function WrittenNow(s: State): nat {
    if s.pc.Writing? then s.pc.written else 0
  }

  /** The appended lines are those of the turns so far, then those being written, then those this turn drops,
      then the filled buffers, then the current one; the file is the rendering of the same turns. */
  predicate Conserved(s: State) {
    && WrittenNow(s) <= |s.toWrite|
    && Clipped(s.appended) ==
      Taken(s.cycles) + Flatten(s.toWrite) + Flatten(DroppedNow(s)) + Flatten(s.buffers) + s.current
    && s.file == Rendered(s.cycles) + NoticeFor(DroppedNow(s)) + AsData(s.toWrite[..WrittenNow(s)])
    && (forall i :: 0 <= i < |s.cycles| ==> DropRule(s.cycles[i].kept, s.cycles[i].dropped))
    && (s.pc.Writing? ==> DropRule(s.toWrite, s.pc.dropped))
  }

  lemma {:induction false} FlattenAppend(xs: seq<Buffer>, ys: seq<Buffer>)
    ensures Flatten(xs + ys) == Flatten(xs) + Flatten(ys)
    decreases |ys|
  {
    if ys == [] {
      assert xs + ys == xs;
    } else {
      var k := |ys| - 1;
      assert (xs + ys)[..|xs| + k] == xs + ys[..k];
      FlattenAppend(xs, ys[..k]);
    }
  }

  lemma FlattenOne(b: Buffer)
    ensures Flatten([b]) == b
  {
    assert [b][..0] == [];
    assert Flatten([]) + b == b;
  }

  lemma AppendRegroups(h: seq<Line>, b: seq<Line>, c: seq<Line>, x: Line)
    ensures h + b + c + [x] == h + b + (c + [x])
    ensures h + b + c + [x] == h + (b + c) + ([] + [x])
  {
  }

  lemma AppendFits(s: State, line: Line)
    requires Recycling(s)
    ensures var t := Append(s, line);
            if Avail(s.current) > |line|
              then t == s.(appended := s.appended + [line], current := s.current + [Clip(line)])
            else t == s.(appended := s.appended + [line], buffers := s.buffers + [s.current],
                         current := [] + [Clip(line)], next := None)
  {
    assert Fit([], line) == Clip(line);
    assert Length(s.current) >= 0;
  }

  /** The line just appended is stored whole exactly if it fits an empty buffer: there is always room for it. */
  lemma NothingTruncated(s: State, line: Line)
    requires Recycling(s)
    ensures var b := Append(s, line).current; b != [] && (b[|b| - 1] == line <==> |line| <= 4_000_000)
  {
    AppendFits(s, line);
  }

  lemma ClippedMore(lines: seq<Line>, line: Line)
    ensures Clipped(lines + [line]) == Clipped(lines) + [Clip(line)]
  {
    assert (lines + [line])[..|lines|] == lines;
  }

  lemma {:induction false} ClippedWhole(lines: seq<Line>)
    requires forall x :: x in lines ==> |x| <= LARGE
    ensures Clipped(lines) == lines
  {
    if lines != [] {
      ClippedWhole(lines[..|lines| - 1]);
    }
  }

  lemma AppendConserves(s: State, line: Line)
    requires Recycling(s) && Conserved(s)
    ensures Conserved(Append(s, line))
  {
    var taken := Taken(s.cycles) + Flatten(s.toWrite) + Flatten(DroppedNow(s));
    AppendRegroups(taken, Flatten(s.buffers), s.current, Clip(line));
    FlattenAppend(s.buffers, [s.current]);
    FlattenOne(s.current);
    AppendFits(s, line);
    ClippedMore(s.appended, line);
    hide Flatten, Taken, Rendered, AsData, NoticeFor, DropRule, Append, Clipped, Clip, Recycling;
  }

  lemma SwapRegroups(h: seq<Line>, f: seq<Line>, c: seq<Line>)
    ensures h + [] + [] + f + c == h + (f + c) + [] + [] + []
  {
  }

  lemma SwapConserves(s: State)
    requires Recycling(s) && Conserved(s) && s.pc.Top?
    ensures Conserved(Swap(s))
  {
    FlattenAppend(s.buffers, [s.current]);
    FlattenOne(s.current);
    SwapRegroups(Taken(s.cycles), Flatten(s.buffers), s.current);
    assert Flatten([]) == [];
    hide Flatten, Taken, Rendered, Clipped;
    assert s.toWrite[..0] == [] && Swap(s).toWrite[..0] == [];
  }

  lemma DropConserves(s: State)
    requires Recycling(s) && Conserved(s) && s.pc.Swapped?
    ensures Conserved(DropExcess(s))
  {
    assert Flatten(DroppedNow(s)) == [] && NoticeFor(DroppedNow(s)) == [];
    hide Flatten, Taken, Rendered, Clipped;
    assert s.toWrite[..0] == [] && DropExcess(s).toWrite[..0] == [];
    if |s.toWrite| > MAX_WAITING {
      DropSplits(s.toWrite);
      DropRegroups(Taken(s.cycles), Flatten(s.toWrite[..2]), Flatten(s.toWrite[2..]), Flatten(s.buffers), s.current);
      NoticeRegroups(Rendered(s.cycles), Notice(|s.toWrite| - 2));
    }
  }

  lemma DropSplits(bs: seq<Buffer>)
    requires |bs| > MAX_WAITING
    ensures Flatten(bs) == Flatten(bs[..2]) + Flatten(bs[2..])
    ensures NoticeFor(bs[2..]) == [Notice(|bs| - 2)] && DropRule(bs[..2], bs[2..])
  {
    hide Flatten, NoticeFor, DropRule;
    var kept, dropped := bs[..2], bs[2..];
    assert kept + dropped == bs && |dropped| == |bs| - 2;
    FlattenAppend(kept, dropped);
    DropIsNoticed(kept, dropped);
  }

  lemma DropIsNoticed(kept: seq<Buffer>, dropped: seq<Buffer>)
    requires |kept| == 2 && |kept| + |dropped| > MAX_WAITING
    ensures NoticeFor(dropped) == [Notice(|dropped|)] && DropRule(kept, dropped)
  {
  }

  lemma NoticeRegroups(r: seq<Chunk>, n: Chunk)
    ensures r + [] + [] + [n] == r + [n] + []
  {
  }

  lemma DropRegroups(h: seq<Line>, k: seq<Line>, d: seq<Line>, b: seq<Line>, c: seq<Line>)
    ensures h + (k + d) + [] + b + c == h + k + d + b + c
  {
  }

  lemma DataGrows(bs: seq<Buffer>, i: nat)
    requires i < |bs|
    ensures AsData(bs[..i + 1]) == AsData(bs[..i]) + [Data(bs[i])]
  {
  }

  lemma WriteConserves(s: State)
    requires Recycling(s) && Conserved(s) && s.pc.Writing? && s.pc.written < |s.toWrite|
    ensures Conserved(WriteOne(s))
  {
    hide Flatten, Taken, Rendered, Clipped, AsData, NoticeFor, DropRule, Recycling;
    DataGrows(s.toWrite, s.pc.written);
  }

  lemma TakenGrows(cs: seq<Cycle>, c: Cycle)
    ensures Taken(cs + [c]) == Taken(cs) + (Flatten(c.kept) + Flatten(c.dropped))
    ensures Rendered(cs + [c]) == Rendered(cs) + (NoticeFor(c.dropped) + AsData(c.kept))
  {
    assert (cs + [c])[..|cs|] == cs;
  }

  lemma NothingTaken()
    ensures Flatten([]) == [] && NoticeFor([]) == [] && AsData([]) == []
  {
  }

  lemma FileRegroups(r: seq<Chunk>, n: seq<Chunk>, d: seq<Chunk>)
    ensures r + n + d == r + (n + d) + [] + []
  {
  }

  lemma RecycleConserves(s: State)
    requires Recycling(s) && Conserved(s) && s.pc.Writing? && s.pc.written == |s.toWrite|
    ensures Conserved(Recycle(s))
  {
    hide Flatten, Taken, Rendered, Clipped, AsData, NoticeFor, DropRule;
    TakenGrows(s.cycles, Cycle(s.toWrite, s.pc.dropped));
    NothingTaken();
    assert s.toWrite[..|s.toWrite|] == s.toWrite && Recycle(s).toWrite[..0] == [];
    RecycleRegroups(Taken(s.cycles), Flatten(s.toWrite), Flatten(s.pc.dropped), Flatten(s.buffers), s.current);
    FileRegroups(Rendered(s.cycles), NoticeFor(s.pc.dropped), AsData(s.toWrite));
  }

  lemma RecycleRegroups(h: seq<Line>, k: seq<Line>, d: seq<Line>, b: seq<Line>, c: seq<Line>)
    ensures h + k + d + b + c == h + (k + d) + [] + [] + b + c
  {
  }

  lemma StepConserves(s: State, e: Event)
    requires Recycling(s) && Conserved(s)
    ensures Conserved(Step(s, e))
  {
    if Enabled(s, e) {
      match e
      case AppendLine(line) => AppendConserves(s, line);
      case Stop =>
      case TestRunning =>
      case EnterSwap => SwapConserves(s);
      case CheckExcess => DropConserves(s);
      case WriteNext => WriteConserves(s);
      case TakeBack => RecycleConserves(s);
    }
  }

  lemma {:induction false} RunConserves(s: State, es: seq<Event>)
    requires Recycling(s) && Conserved(s)
    ensures Conserved(Run(s, es))
    decreases |es|
  {
    if es != [] {
      StepKeepsRecycling(s, es[0]);
      StepConserves(s, es[0]);
      RunConserves(Step(s, es[0]), es[1..]);
    }
  }

  function AppendedBy(es: seq<Event>): seq<Line> {
    if es == [] then []
    else (if es[0].AppendLine? then [es[0].line] else []) + AppendedBy(es[1..])
  }

  lemma {:induction false} LogOfRun(s: State, es: seq<Event>)
    requires Recycling(s)
    ensures Run(s, es).appended == s.appended + AppendedBy(es)
    decreases |es|
  {
    if es == [] {
      assert s.appended + [] == s.appended;
    } else {
      hide Step, Recycling;
      StepKeepsRecycling(s, es[0]);
      StepLogs(s, es[0]);
      LogOfRun(Step(s, es[0]), es[1..]);
      LogRegroups(s.appended, if es[0].AppendLine? then [es[0].line] else [], AppendedBy(es[1..]));
    }
  }

  lemma LogRegroups(a: seq<Line>, x: seq<Line>, b: seq<Line>)
    ensures a + x + b == a + (x + b)
  {
  }

  lemma StepLogs(s: State, e: Event)
    requires Recycling(s)
    ensures Step(s, e).appended == s.appended + if e.AppendLine? then [e.line] else []
  {
  }

  /** In every interleaving of appends and back-end turns the appended lines, of which only those longer than
      a whole buffer are cut, are in order: those the finished turns took, those being written, those this
      turn drops, the filled buffers, the current buffer.  The file holds what the turns kept, and one notice
      with the right count for each run of buffers dropped, which happens only to a backlog of more than 25
      buffers. */
  lemma NoLineLostSilently(es: seq<Event>)
    ensures var s := Run(Init(), es);
            && Conserved(s)
            && Clipped(AppendedBy(es)) ==
                 Taken(s.cycles) + Flatten(s.toWrite) + Flatten(DroppedNow(s)) + Flatten(s.buffers) + s.current
            && s.file == Rendered(s.cycles) + NoticeFor(DroppedNow(s)) + AsData(s.toWrite[..WrittenNow(s)])
            && (forall i :: 0 <= i < |s.cycles| ==> DropRule(s.cycles[i].kept, s.cycles[i].dropped))
    ensures (forall x :: x in AppendedBy(es) ==> |x| <= 4_000_000) ==> Clipped(AppendedBy(es)) == AppendedBy(es)
  {
    var i := Init();
    assert i.toWrite[..0] == [] && Conserved(i);
    RunConserves(i, es);
    LogOfRun(i, es);
    assert [] + AppendedBy(es) == AppendedBy(es);
    if forall x :: x in AppendedBy(es) ==> |x| <= 4_000_000 {
      ClippedWhole(AppendedBy(es));
    }
  }

  // ---------------------------------------------------------------- without a backlog the file is the log

  /** The lines in the file. */
  function LinesIn(file: seq<Chunk>): seq<Line> {
    if file == [] then []
    else LinesIn(file[..|file| - 1]) + (if file[|file| - 1].Data? then file[|file| - 1].buffer else [])
  }

  lemma {:induction false} LinesInAppend(xs: seq<Chunk>, ys: seq<Chunk>)
    ensures LinesIn(xs + ys) == LinesIn(xs) + LinesIn(ys)
    decreases |ys|
  {
    if ys == [] {
      assert xs + ys == xs;
    } else {
      var k := |ys| - 1;
      assert (xs + ys)[..|xs| + k] == xs + ys[..k];
      LinesInAppend(xs, ys[..k]);
    }
  }

  lemma {:induction false} LinesInData(bs: seq<Buffer>)
    ensures LinesIn(AsData(bs)) == Flatten(bs)
    decreases |bs|
  {
    if bs != [] {
      var k := |bs| - 1;
      assert AsData(bs)[..k] == AsData(bs[..k]);
      LinesInData(bs[..k]);
    }
  }

  lemma {:induction false} LinesInRendered(cs: seq<Cycle>)
    requires forall i :: 0 <= i < |cs| ==> cs[i].dropped == []
    ensures LinesIn(Rendered(cs)) == Taken(cs)
    decreases |cs|
  {
    if cs != [] {
      var last := cs[|cs| - 1];
      LinesInRendered(cs[..|cs| - 1]);
      LinesInAppend(Rendered(cs[..|cs| - 1]), NoticeFor(last.dropped) + AsData(last.kept));
      assert NoticeFor(last.dropped) + AsData(last.kept) == AsData(last.kept);
      LinesInData(last.kept);
      assert Flatten(last.kept) + Flatten(last.dropped) == Flatten(last.kept);
    }
  }

  /** As long as no turn has found a backlog, the lines in the file, then those not yet written, are exactly
      the lines appended, cut only where longer than a whole buffer: nothing lost, nothing twice, nothing out
      of order. */
  lemma FileIsPrefixOfLog(es: seq<Event>)
    requires var s := Run(Init(), es);
             DroppedNow(s) == [] && forall i :: 0 <= i < |s.cycles| ==> s.cycles[i].dropped == []
    ensures var s := Run(Init(), es);
            && WrittenNow(s) <= |s.toWrite|
            && LinesIn(s.file) + Flatten(s.toWrite[WrittenNow(s)..]) + Flatten(s.buffers) + s.current ==
              Clipped(AppendedBy(es))
  {
    NoLineLostSilently(es);
    hide Conserved, Run, Clipped, Flatten, LinesIn;
    FilePrefix(Run(Init(), es));
  }

  lemma FilePrefix(s: State)
    requires Conserved(s) && DroppedNow(s) == [] && forall i :: 0 <= i < |s.cycles| ==> s.cycles[i].dropped == []
    ensures WrittenNow(s) <= |s.toWrite|
    ensures LinesIn(s.file) + Flatten(s.toWrite[WrittenNow(s)..]) + Flatten(s.buffers) + s.current ==
            Taken(s.cycles) + Flatten(s.toWrite) + Flatten(DroppedNow(s)) + Flatten(s.buffers) + s.current
  {
    hide Flatten, Taken, Rendered, LinesIn, AsData, DropRule, Clipped, NoticeFor;
    NothingTaken();
    var w, u := s.toWrite[..WrittenNow(s)], s.toWrite[WrittenNow(s)..];
    assert w + u == s.toWrite;
    FlattenAppend(w, u);
    LinesInRendered(s.cycles);
    LinesInData(w);
    LinesInAppend(Rendered(s.cycles), AsData(w));
    assert Rendered(s.cycles) + [] + AsData(w) == Rendered(s.cycles) + AsData(w);
    PrefixRegroups(Taken(s.cycles), Flatten(w), Flatten(u), Flatten(s.buffers), s.current);
  }

  lemma PrefixRegroups(h: seq<Line>, w: seq<Line>, u: seq<Line>, b: seq<Line>, c: seq<Line>)
    ensures h + (w + u) + [] + b + c == h + w + u + b + c
  {
  }

  // ---------------------------------------------------------------- stopping

  lemma {:induction false} StaysStopped(s: State, es: seq<Event>)
    requires Recycling(s) && !s.running
    ensures !Run(s, es).running
    decreases |es|
  {
    if es != [] {
      StepKeepsRecycling(s, es[0]);
      StepStaysStopped(s, es[0]);
      hide Step, Recycling;
      StaysStopped(Step(s, es[0]), es[1..]);
    }
  }

  lemma StepStaysStopped(s: State, e: Event)
    requires Recycling(s) && (!s.running || s.pc.Finished?)
    ensures !s.running ==> !Step(s, e).running
    ensures s.pc.Finished? ==> Step(s, e).pc.Finished? && Step(s, e).file == s.file
  {
  }

  lemma {:induction false} StaysFinished(s: State, es: seq<Event>)
    requires Recycling(s) && s.pc.Finished?
    ensures Run(s, es).pc.Finished? && Run(s, es).file == s.file
    decreases |es|
  {
    if es != [] {
      StepKeepsRecycling(s, es[0]);
      StepStaysStopped(s, es[0]);
      hide Step, Recycling;
      StaysFinished(Step(s, es[0]), es[1..]);
    }
  }

  /** After `stop` the back end's next test of `running_`, whatever happens before it, is its last: nothing is
      written after it, in every continuation. */
  lemma StopEnds(s: State, es: seq<Event>, later: seq<Event>)
    requires Recycling(s)
    ensures Recycling(Step(s, Stop))
    ensures var f := Run(Step(s, Stop), es);
            f.pc.AtTest? ==>
              && Recycling(Step(f, TestRunning)) && Step(f, TestRunning).pc.Finished?
              && Run(Step(f, TestRunning), later).pc.Finished?
              && Run(Step(f, TestRunning), later).file == f.file
  {
    StepKeepsRecycling(s, Stop);
    var t := Step(s, Stop);
    StaysStopped(t, es);
    var f := Run(t, es);
    if f.pc.AtTest? {
      StepKeepsRecycling(f, TestRunning);
      StaysFinished(Step(f, TestRunning), later);
    }
  }

  /** And as long as nobody has stopped it, the test begins another turn. */
  lemma RunsOn(s: State)
    requires Recycling(s) && s.pc.AtTest? && s.running
    ensures Step(s, TestRunning) == s.(pc := Top)
  {
  }
}
