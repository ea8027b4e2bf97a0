/** The incremental request parser of http/HttpContextff.cpp and the request of http/HttpRequestff.h, on values. */
module Http {
  import opened Common
  import opened Buffer

  datatype Method = Invalid | Get | Post | Head | Put | Delete

  datatype Version = Unknown | Http10 | Http11 | Http20

  datatype Request = Request(
    method_: Method, version: Version, path: string, query: string, receiveTime: int, headers: map<string, string>)

  datatype ParseState = ExpectRequestLine | ExpectHeaders | ExpectBody | GotAll

  datatype Context = Context(state: ParseState, request: Request)

  /** What `parseRequest` returns, the context it leaves, and the bytes it leaves in the buffer. */
  datatype Outcome = Outcome(ok: bool, context: Context, rest: string)

  function EmptyRequest(): Request {
    Request(Invalid, Unknown, "", "", 0, map[])
  }

  function NewContext(): Context {
    Context(ExpectRequestLine, EmptyRequest())
  }

  // ---------------------------------------------------------------- fields of a request

  /** `std::find`: the index of the first `c`, or the length. */
  function Find(s: string, c: char): (i: nat)
    ensures i <= |s| && forall j :: 0 <= j < i ==> s[j] != c
    ensures i < |s| ==> s[i] == c
  {
    if s == "" || s[0] == c then 0 else 1 + Find(s[1..], c)
  }

  function MethodOf(s: string): Method {
    if s == "GET" then Get
    else if s == "POST" then Post
    else if s == "HEAD" then Head
    else if s == "PUT" then Put
    else if s == "DELETE" then Delete
    else Invalid
  }

  function MethodText(m: Method): string {
    match m
    case Get => "GET" case Post => "POST" case Head => "HEAD" case Put => "PUT" case Delete => "DELETE"
    case Invalid => "UNKONWN"
  }

  function VersionText(v: Version): string {
    match v
    case Http10 => "HTTP/1.0" case Http11 => "HTTP/1.1" case Http20 => "HTTP/2.0"
    case Unknown => "UNKOWN"
  }

  /** `isspace` in the "C" locale. */
  predicate IsSpace(c: char) {
    c == ' ' || '\t' <= c <= '\r'
  }

  function TrimLeft(s: string): string {
    if s != "" && IsSpace(s[0]) then TrimLeft(s[1..]) else s
  }

  function TrimRight(s: string): string {
    if s != "" && IsSpace(s[|s| - 1]) then TrimRight(s[..|s| - 1]) else s
  }

  /** `addHeader` of a line with its colon at `colon`. */
  function AddHeader(r: Request, line: string, colon: nat): Request
    requires colon < |line|
  {
    r.(headers := r.headers[line[..colon] := TrimRight(TrimLeft(line[colon + 1..]))])
  }

  /** The version test compares two of the three characters after "HTTP/", so the minor version is never seen. */
  function VersionOf(s: string): Version {
    if |s| == 8 && s[..5] == "HTTP/" then
      if s[5..7] == "1.0"[..2] then Http10
      else if s[5..7] == "1.1"[..2] then Http11
      else if s[5..7] == "2.0"[..2] then Http20
      else Unknown
    else Unknown
  }

  /** `setPath` and, only when there is a question mark, `setQuery`. */
  function SetTarget(r: Request, target: string): Request {
    var q := Find(target, '?');
    if q < |target| then r.(path := target[..q], query := target[q..]) else r.(path := target)
  }

  /** `processRequestLine`: the request as far as it got, and whether the line is good. */
  function ProcessRequestLine(r: Request, line: string): (Request, bool) {
    var space := Find(line, ' ');
    if space == |line| then (r, false) else
    var r1 := r.(method_ := MethodOf(line[..space]));
    if r1.method_.Invalid? then (r1, false) else
    var rest := line[space + 1..];
    var end := Find(rest, ' ');
    if end == |rest| then (r1, false) else
    var r2 := SetTarget(r1, rest[..end]);
    var v := VersionOf(rest[end + 1..]);
    if v.Unknown? then (r2, false) else (r2.(version := v), true)
  }

  // ---------------------------------------------------------------- the parser

  /** `parseRequest` returns only from these states: in any other its loop makes no progress. */
  predicate Parsable(c: Context) {
    c.state.ExpectRequestLine? || c.state.ExpectHeaders?
  }

  function Parse(c: Context, s: string, time: int): (o: Outcome)
    requires Parsable(c)
    ensures o.context.state.ExpectRequestLine? || o.context.state.ExpectHeaders? || o.context.state.GotAll?
    ensures !o.ok ==> o.context.state.ExpectRequestLine?
    decreases |s|
  {
    match FindCrlf(s)
    case None => Outcome(true, c, s)
    case Some(i) =>
      if c.state.ExpectRequestLine? then
        var (r, good) := ProcessRequestLine(c.request, s[..i]);
        if good then Parse(Context(ExpectHeaders, r.(receiveTime := time)), s[i + 2..], time)
        else Outcome(false, Context(ExpectRequestLine, r), s)
      else
        var colon := Find(s[..i], ':');
        if colon < i then Parse(Context(ExpectHeaders, AddHeader(c.request, s[..i], colon)), s[i + 2..], time)
        else Outcome(true, Context(GotAll, c.request), s[i + 2..])
  }

  /** Parsing is over: the request is complete or its first line is bad. */
  predicate Final(o: Outcome) {
    !o.ok || o.context.state.GotAll?
  }

  // ---------------------------------------------------------------- chunking

  /** A line end found in a prefix is the line end of the whole. */
  lemma CrlfInPrefix(a: string, b: string)
    ensures FindCrlf(a).Some? ==> FindCrlf(a + b) == FindCrlf(a)
  {
    if FindCrlf(a).Some? {
      var i := FindCrlf(a).value;
      assert CrlfAt(a + b, i);
      assert forall j :: 0 <= j < i ==> (CrlfAt(a + b, j) <==> CrlfAt(a, j));
    }
  }

  /** Feeding `a` and then `b` is feeding `a + b`, wherever the cut falls, also between CR and LF. */
  lemma {:induction false} ParseSplit(c: Context, a: string, b: string, time: int)
    requires Parsable(c)
    ensures var p := Parse(c, a, time);
            Parse(c, a + b, time) ==
              if Final(p) then p.(rest := p.rest + b) else Parse(p.context, p.rest + b, time)
    decreases |a|
  {
    CrlfInPrefix(a, b);
    match FindCrlf(a)
    case None =>
    case Some(i) =>
      assert (a + b)[..i] == a[..i];
      assert (a + b)[i + 2..] == a[i + 2..] + b;
      if c.state.ExpectRequestLine? {
        var (r, good) := ProcessRequestLine(c.request, a[..i]);
        if good {
          ParseSplit(Context(ExpectHeaders, r.(receiveTime := time)), a[i + 2..], b, time);
        }
      } else {
        var colon := Find(a[..i], ':');
        if colon < i {
          ParseSplit(Context(ExpectHeaders, AddHeader(c.request, a[..i], colon)), a[i + 2..], b, time);
        }
      }
  }

  function Timeless(c: Context): Context {
    c.(request := c.request.(receiveTime := 0))
  }

  function TimelessOutcome(o: Outcome): Outcome {
    o.(context := Timeless(o.context))
  }

  lemma LineTimeless(r: Request, line: string)
    ensures ProcessRequestLine(r.(receiveTime := 0), line) ==
            (ProcessRequestLine(r, line).0.(receiveTime := 0), ProcessRequestLine(r, line).1)
  {
  }

  /** The receive time is recorded and never looked at. */
  lemma {:induction false} ParseTimeless(c: Context, d: Context, s: string, t: int, u: int)
    requires Parsable(c) && Parsable(d) && Timeless(c) == Timeless(d)
    ensures TimelessOutcome(Parse(c, s, t)) == TimelessOutcome(Parse(d, s, u))
    decreases |s|
  {
    match FindCrlf(s)
    case None =>
    case Some(i) =>
      if c.state.ExpectRequestLine? {
        LineTimeless(c.request, s[..i]);
        LineTimeless(d.request, s[..i]);
        hide ProcessRequestLine;
        var (r, good) := ProcessRequestLine(c.request, s[..i]);
        var (q, _) := ProcessRequestLine(d.request, s[..i]);
        if good {
          ParseTimeless(Context(ExpectHeaders, r.(receiveTime := t)), Context(ExpectHeaders, q.(receiveTime := u)),
                        s[i + 2..], t, u);
        }
      } else {
        var colon := Find(s[..i], ':');
        if colon < i {
          ParseTimeless(Context(ExpectHeaders, AddHeader(c.request, s[..i], colon)),
                        Context(ExpectHeaders, AddHeader(d.request, s[..i], colon)), s[i + 2..], t, u);
        }
      }
  }

  /** Bytes arriving together, and when. */
  datatype Chunk = Chunk(bytes: string, time: int)

  function Concat(chunks: seq<Chunk>): string {
    if chunks == [] then "" else chunks[0].bytes + Concat(chunks[1..])
  }

  /** One call of `parseRequest` per chunk, each on what the buffer then holds, until the request is complete
      or bad; what arrives later just stays in the buffer. */
  function Feed(c: Context, pending: string, chunks: seq<Chunk>): Outcome
    requires Parsable(c)
    decreases |chunks|
  {
    if chunks == [] then Outcome(true, c, pending)
    else
      var p := Parse(c, pending + chunks[0].bytes, chunks[0].time);
      if Final(p) then p.(rest := p.rest + Concat(chunks[1..]))
      else Feed(p.context, p.rest, chunks[1..])
  }

  lemma {:induction false} LeftoverHasNoLine(c: Context, s: string, time: int)
    requires Parsable(c)
    ensures Final(Parse(c, s, time)) || FindCrlf(Parse(c, s, time).rest).None?
    decreases |s|
  {
    match FindCrlf(s)
    case None =>
    case Some(i) =>
      if c.state.ExpectRequestLine? {
        var (r, good) := ProcessRequestLine(c.request, s[..i]);
        if good {
          LeftoverHasNoLine(Context(ExpectHeaders, r.(receiveTime := time)), s[i + 2..], time);
        }
      } else {
        var colon := Find(s[..i], ':');
        if colon < i {
          LeftoverHasNoLine(Context(ExpectHeaders, AddHeader(c.request, s[..i], colon)), s[i + 2..], time);
        }
      }
  }

  lemma {:induction false} FeedIsParse(c: Context, pending: string, chunks: seq<Chunk>, time: int)
    requires Parsable(c) && FindCrlf(pending).None?
    ensures TimelessOutcome(Feed(c, pending, chunks)) == TimelessOutcome(Parse(c, pending + Concat(chunks), time))
    decreases |chunks|
  {
    if chunks == [] {
      assert pending + "" == pending;
    } else {
      var head, tail := pending + chunks[0].bytes, Concat(chunks[1..]);
      var p := Parse(c, head, chunks[0].time);
      assert pending + Concat(chunks) == head + tail;
      ParseSplit(c, head, tail, chunks[0].time);
      ParseTimeless(c, c, head + tail, chunks[0].time, time);
      if !Final(p) {
        LeftoverHasNoLine(c, head, chunks[0].time);
        FeedIsParse(p.context, p.rest, chunks[1..], time);
        ParseTimeless(p.context, p.context, p.rest + tail, chunks[0].time, time);
      }
    }
  }

  /** Parsing does not depend on how the bytes were cut into messages: same result, same state, same request
      except its receive time, same bytes left over. */
  lemma ChunkingInvariant(xs: seq<Chunk>, ys: seq<Chunk>)
    requires Concat(xs) == Concat(ys)
    ensures TimelessOutcome(Feed(NewContext(), "", xs)) == TimelessOutcome(Feed(NewContext(), "", ys))
  {
    FeedIsParse(NewContext(), "", xs, 0);
    FeedIsParse(NewContext(), "", ys, 0);
  }
}
