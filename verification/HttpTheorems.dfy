/** Rendering and parsing a request, what the version test sees, and what a bad request line leaves behind. */
module HttpTheorems {
  import opened Common
  import opened Buffer
  import opened Http

  const CRLF: string := "\r\n"

  ghost predicate NoCrlf(s: string) {
    forall i: nat :: !CrlfAt(s, i)
  }

  predicate Free(s: string, c: char) {
    c !in s
  }

  predicate Trimmed(s: string) {
    s != "" ==> !IsSpace(s[0]) && !IsSpace(s[|s| - 1])
  }

  datatype Header = Header(name: string, value: string)

  function HeaderLine(h: Header): string {
    h.name + ":" + (" " + h.value)
  }

  function RenderHeaders(hs: seq<Header>): string {
    if hs == [] then "" else HeaderLine(hs[0]) + CRLF + RenderHeaders(hs[1..])
  }

  function RequestLine(m: Method, path: string, query: string, v: Version): string {
    MethodText(m) + " " + (path + query) + " " + VersionText(v)
  }

  /** A request in the form of sections 3.1.1 and 3.2 of RFC 7230, without a body. */
  function Render(m: Method, path: string, query: string, v: Version, hs: seq<Header>): string {
    RequestLine(m, path, query, v) + CRLF + (RenderHeaders(hs) + CRLF)
  }

  ghost predicate GoodTarget(path: string, query: string) {
    && Free(path, ' ') && Free(path, '?') && Free(query, ' ')
    && (query != "" ==> query[0] == '?')
    && NoCrlf(path + query)
  }

  ghost predicate GoodHeader(h: Header) {
    Free(h.name, ':') && NoCrlf(h.name) && NoCrlf(h.value) && Trimmed(h.value)
  }

  /** Later headers of the same name win. */
  function HeaderMap(hs: seq<Header>, m: map<string, string>): map<string, string> {
    if hs == [] then m else HeaderMap(hs[1..], m[hs[0].name := hs[0].value])
  }

  /** What the parser makes of a version. */
  function Collapse(v: Version): Version {
    if v.Http20? then Http20 else Http10
  }

  // ---------------------------------------------------------------- searching in concatenations

  lemma NoCrlfConcat(a: string, b: string)
    requires NoCrlf(a) && NoCrlf(b) && (a != "" && b != "" ==> a[|a| - 1] != '\r' || b[0] != '\n')
    ensures NoCrlf(a + b)
  {
    forall i: nat ensures !CrlfAt(a + b, i) {
      if i + 1 < |a| {
        assert !CrlfAt(a, i);
      } else if i >= |a| {
        assert !CrlfAt(b, i - |a|);
      }
    }
  }

  /** The first line end of a line followed by CR LF is at the end of the line. */
  lemma LineEnd(line: string, tail: string)
    requires NoCrlf(line)
    ensures FindCrlf(line + CRLF + tail) == Some(|line|)
    ensures (line + CRLF + tail)[..|line|] == line && (line + CRLF + tail)[|line| + 2..] == tail
  {
    var s := line + CRLF + tail;
    assert s[|line|] == '\r' && s[|line| + 1] == '\n';
    assert CrlfAt(s, |line|);
    forall j | 0 <= j < |line| ensures !CrlfAt(s, j) {
      if j + 1 < |line| {
        assert !CrlfAt(line, j);
      }
    }
  }

  lemma {:induction false} FindAfter(a: string, c: char, b: string)
    requires Free(a, c)
    ensures Find(a + [c] + b, c) == |a|
    ensures (a + [c] + b)[..|a|] == a && (a + [c] + b)[|a| + 1..] == b
  {
    if a != "" {
      assert (a + [c] + b)[1..] == a[1..] + [c] + b;
      FindAfter(a[1..], c, b);
    }
  }

  lemma {:induction false} FindNone(a: string, c: char)
    requires Free(a, c)
    ensures Find(a, c) == |a|
  {
    if a != "" {
      FindNone(a[1..], c);
    }
  }

  // ---------------------------------------------------------------- headers

  lemma TrimValue(v: string)
    requires Trimmed(v)
    ensures TrimRight(TrimLeft(" " + v)) == v
  {
    assert (" " + v)[1..] == v;
    assert TrimLeft(" " + v) == TrimLeft(v);
  }

  lemma HeaderLineParses(r: Request, h: Header)
    requires GoodHeader(h)
    ensures NoCrlf(HeaderLine(h)) && Find(HeaderLine(h), ':') == |h.name| < |HeaderLine(h)|
    ensures AddHeader(r, HeaderLine(h), |h.name|) == r.(headers := r.headers[h.name := h.value])
  {
    FindAfter(h.name, ':', " " + h.value);
    assert NoCrlf(":") && NoCrlf(" ");
    NoCrlfConcat(" ", h.value);
    NoCrlfConcat(h.name, ":");
    NoCrlfConcat(h.name + ":", " " + h.value);
    TrimValue(h.value);
  }

  lemma {:induction false} HeadersParse(r: Request, hs: seq<Header>, extra: string, time: int)
    requires forall h :: h in hs ==> GoodHeader(h)
    ensures Parse(Context(ExpectHeaders, r), RenderHeaders(hs) + CRLF + extra, time) ==
            Outcome(true, Context(GotAll, r.(headers := HeaderMap(hs, r.headers))), extra)
    decreases |hs|
  {
    if hs == [] {
      assert NoCrlf("");
      LineEnd("", extra);
      assert "" + CRLF + extra == RenderHeaders(hs) + CRLF + extra;
    } else {
      var line := HeaderLine(hs[0]);
      var tail := RenderHeaders(hs[1..]) + CRLF + extra;
      assert RenderHeaders(hs) + CRLF + extra == line + CRLF + tail;
      HeaderLineParses(r, hs[0]);
      LineEnd(line, tail);
      HeadersParse(r.(headers := r.headers[hs[0].name := hs[0].value]), hs[1..], extra, time);
    }
  }

  // ---------------------------------------------------------------- the request line

  lemma MethodRoundTrip(m: Method)
    requires !m.Invalid?
    ensures MethodOf(MethodText(m)) == m && Free(MethodText(m), ' ') && NoCrlf(MethodText(m))
  {
  }

  lemma VersionReads(v: Version)
    requires !v.Unknown?
    ensures VersionOf(VersionText(v)) == Collapse(v) && NoCrlf(VersionText(v))
    ensures VersionText(v) != "" && VersionText(v)[0] == 'H'
  {
    var t := VersionText(v);
    assert t[..5] == "HTTP/" && t[5..7] == [t[5], t[6]];
    assert "1.0"[..2] == ['1', '.'] && "2.0"[..2] == ['2', '.'];
  }

  lemma TargetSets(r: Request, path: string, query: string)
    requires Free(path, '?') && (query != "" ==> query[0] == '?')
    ensures SetTarget(r, path + query) == if query == "" then r.(path := path) else r.(path := path, query := query)
  {
    if query == "" {
      assert path + query == path;
      FindNone(path, '?');
    } else {
      assert path + query == path + ['?'] + query[1..];
      FindAfter(path, '?', query[1..]);
      assert (path + query)[|path|..] == query;
    }
  }

  lemma RequestLineParses(r: Request, m: Method, path: string, query: string, v: Version)
    requires !m.Invalid? && !v.Unknown? && GoodTarget(path, query)
    ensures NoCrlf(RequestLine(m, path, query, v))
    ensures ProcessRequestLine(r, RequestLine(m, path, query, v)) ==
            (r.(method_ := m, path := path, query := if query == ""
              then r.query else query, version := Collapse(v)), true)
  {
    hide MethodText, VersionText, MethodOf, VersionOf, SetTarget, NoCrlf, Find;
    MethodRoundTrip(m);
    VersionReads(v);
    var target, vt := path + query, VersionText(v);
    LineSplits(MethodText(m), target, vt);
    TargetSets(r.(method_ := m), path, query);
    RequestLineHasNoCrlf(MethodText(m), target, vt);
  }

  lemma LineSplits(m: string, target: string, v: string)
    requires Free(m, ' ') && Free(target, ' ')
    ensures var line := m + " " + target + " " + v;
            && Find(line, ' ') == |m| < |line| && line[..|m|] == m
            && line[|m| + 1..] == target + " " + v
            && Find(target + " " + v, ' ') == |target| < |target + " " + v|
            && (target + " " + v)[..|target|] == target && (target + " " + v)[|target| + 1..] == v
  {
    assert m + " " + target + " " + v == m + [' '] + (target + [' '] + v);
    FindAfter(m, ' ', target + [' '] + v);
    FindAfter(target, ' ', v);
  }

  lemma RequestLineHasNoCrlf(m: string, target: string, v: string)
    requires NoCrlf(m) && NoCrlf(target) && NoCrlf(v)
    requires v != "" ==> v[0] != '\n'
    ensures NoCrlf(m + " " + target + " " + v)
  {
    assert NoCrlf(" ");
    NoCrlfConcat(m, " ");
    NoCrlfConcat(m + " ", target);
    NoCrlfConcat(m + " " + target, " ");
    NoCrlfConcat(m + " " + target + " ", v);
  }

  // ---------------------------------------------------------------- the round trip

  /** Rendering any supported request and parsing it, whatever bytes follow, completes the request with the
      same fields and leaves exactly the bytes that followed; only the version comes out collapsed. */
  lemma RoundTrip(m: Method, path: string, query: string, v: Version, hs: seq<Header>, extra: string, time: int)
    requires !m.Invalid? && !v.Unknown? && GoodTarget(path, query)
    requires forall h :: h in hs ==> GoodHeader(h)
    ensures Parse(NewContext(), Render(m, path, query, v, hs) + extra, time) ==
            Outcome(true, Context(GotAll, Request(m, Collapse(v), path, query, time, HeaderMap(hs, map[]))), extra)
  {
    var line := RequestLine(m, path, query, v);
    var tail := RenderHeaders(hs) + CRLF + extra;
    assert Render(m, path, query, v, hs) + extra == line + CRLF + tail;
    RequestLineParses(EmptyRequest(), m, path, query, v);
    LineEnd(line, tail);
    HeadersParse(Request(m, Collapse(v), path, query, time, map[]), hs, extra, time);
  }

  /** The same, however the network cuts the rendered request. */
  lemma RoundTripInChunks(m: Method, path: string, query: string, v: Version, hs: seq<Header>, chunks: seq<Chunk>)
    requires !m.Invalid? && !v.Unknown? && GoodTarget(path, query)
    requires forall h :: h in hs ==> GoodHeader(h)
    requires Concat(chunks) == Render(m, path, query, v, hs)
    ensures TimelessOutcome(Feed(NewContext(), "", chunks)) ==
            Outcome(true, Context(GotAll, Request(m, Collapse(v), path, query, 0, HeaderMap(hs, map[]))), "")
  {
    RoundTrip(m, path, query, v, hs, "", 0);
    assert Render(m, path, query, v, hs) + "" == Render(m, path, query, v, hs);
    FeedIsParse(NewContext(), "", chunks, 0);
    assert "" + Concat(chunks) == Concat(chunks);
  }

  /** With distinct names the parsed headers are the headers sent. */
  lemma {:induction false} HeaderMapExact(hs: seq<Header>, m: map<string, string>)
    requires forall i, j :: 0 <= i < j < |hs| ==> hs[i].name != hs[j].name
    ensures forall h :: h in hs ==> h.name in HeaderMap(hs, m) && HeaderMap(hs, m)[h.name] == h.value
    ensures forall k :: k in HeaderMap(hs, m) ==> (exists h :: h in hs && h.name == k) || k in m
    ensures forall k :: k in m && (forall h :: h in hs ==> h.name != k) ==>
      k in HeaderMap(hs, m) && HeaderMap(hs, m)[k] == m[k]
    decreases |hs|
  {
    if hs != [] {
      HeaderMapExact(hs[1..], m[hs[0].name := hs[0].value]);
      assert forall h :: h in hs <==> h == hs[0] || h in hs[1..] by { assert hs == [hs[0]] + hs[1..]; }
      assert forall h :: h in hs[1..] ==> h.name != hs[0].name;
    }
  }

  // ---------------------------------------------------------------- what the code does not do

  /** The parser tells the versions apart only by the major number: `kHttp11` is never the result, and a
      request line that says HTTP/1.1 comes out as HTTP/1.0.  The version is right exactly when it is not 1.1. */
  lemma VersionRightExactly(v: Version)
    requires !v.Unknown?
    ensures VersionOf(VersionText(v)) == v <==> !v.Http11?
  {
    VersionReads(v);
  }

  lemma Http11NeverParsed(s: string)
    ensures VersionOf(s) != Http11
  {
    assert "1.1"[..2] == "1.0"[..2];
  }

  /** A line is good or bad whatever the request already holds. */
  lemma GoodnessOfLine(r: Request, q: Request, line: string)
    ensures ProcessRequestLine(r, line).1 == ProcessRequestLine(q, line).1
  {
  }

  /** After a bad request line the connection cannot recover: the line stays in the buffer and every later
      call fails on it again. */
  lemma FailureIsPermanent(c: Context, s: string, t: int, more: string, u: int)
    requires Parsable(c) && !Parse(c, s, t).ok
    ensures var p := Parse(c, s, t);
            Parsable(p.context) && !Parse(p.context, p.rest + more, u).ok
              && Parse(p.context, p.rest + more, u).rest == p.rest + more
    decreases |s|
  {
    var i := FindCrlf(s).value;
    if c.state.ExpectRequestLine? {
      var (r, good) := ProcessRequestLine(c.request, s[..i]);
      if good {
        FailureIsPermanent(Context(ExpectHeaders, r.(receiveTime := t)), s[i + 2..], t, more, u);
      } else {
        CrlfInPrefix(s, more);
        assert (s + more)[..i] == s[..i];
        GoodnessOfLine(c.request, r, s[..i]);
      }
    } else {
      var colon := Find(s[..i], ':');
      FailureIsPermanent(Context(ExpectHeaders, AddHeader(c.request, s[..i], colon)), s[i + 2..], t, more, u);
    }
  }

  /** `setMethod` asserts that no method is set.  After a rejected request line the next call of the parser meets
      that assert, and passes it exactly if the line named no method that the server knows. */
  lemma MethodAssertExactly(c: Context, s: string, time: int)
    requires c.state.ExpectRequestLine? && c.request.method_.Invalid? && FindCrlf(s).Some?
    requires !Parse(c, s, time).ok && !ProcessRequestLine(c.request, s[..FindCrlf(s).value]).1
    ensures var line := s[..FindCrlf(s).value];
            Parse(c, s, time).context.request.method_.Invalid? <==>
              Find(line, ' ') == |line| || MethodOf(line[..Find(line, ' ')]).Invalid?
  {
  }
}
