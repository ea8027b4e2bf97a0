/** Which bytes the parser takes and which it rejects, in terms of the text alone: http/HttpContextff.cpp:7-109 and
    http/HttpRequestff.h:66-158, and the 400 of http/HttpServerff.cpp:56-60. */
module HttpGrammar {
  import opened Common
  import opened Buffer
  import opened Http
  import opened HttpTheorems
  import opened HttpServing

  // ---------------------------------------------------------------- request lines

  /** The five method names, in capitals, and nothing else. */
  lemma MethodExactly(s: string)
    ensures MethodOf(s) == Get <==> s == "GET"
    ensures MethodOf(s) == Post <==> s == "POST"
    ensures MethodOf(s) == Head <==> s == "HEAD"
    ensures MethodOf(s) == Put <==> s == "PUT"
    ensures MethodOf(s) == Delete <==> s == "DELETE"
    ensures MethodOf(s) != Invalid <==> s in {"GET", "POST", "HEAD", "PUT", "DELETE"}
  {
  }

  /** Eight characters: "HTTP/", the major number 1 or 2, a point, and any eighth character. */
  predicate VersionTextGood(v: string) {
    |v| == 8 && v[..5] == "HTTP/" && (v[5] == '1' || v[5] == '2') && v[6] == '.'
  }

  lemma VersionExactly(v: string)
    ensures VersionOf(v) != Unknown <==> VersionTextGood(v)
    ensures VersionTextGood(v) ==> VersionOf(v) == if v[5] == '2' then Http20 else Http10
  {
    assert "1.0"[..2] == ['1', '.'] && "1.1"[..2] == ['1', '.'] && "2.0"[..2] == ['2', '.'];
    if |v| == 8 {
      assert v[5..7] == [v[5], v[6]];
    }
  }

  ghost predicate SplitsAs(line: string, m: string, target: string, v: string) {
    && line == m + " " + target + " " + v
    && m in {"GET", "POST", "HEAD", "PUT", "DELETE"} && ' ' !in target && VersionTextGood(v)
  }

  ghost predicate GoodLine(line: string) {
    exists m, target, v :: SplitsAs(line, m, target, v)
  }

  lemma MethodHasNoSpace(m: string)
    requires m in {"GET", "POST", "HEAD", "PUT", "DELETE"}
    ensures Free(m, ' ')
  {
  }

  lemma SplitIsGood(r: Request, line: string, m: string, target: string, v: string)
    requires SplitsAs(line, m, target, v)
    ensures ProcessRequestLine(r, line).1
    ensures ProcessRequestLine(r, line).0 == SetTarget(r.(method_ := MethodOf(m)), target).(version := VersionOf(v))
  {
    MethodHasNoSpace(m);
    LineSplits(m, target, v);
    MethodExactly(m);
    VersionExactly(v);
    hide MethodOf, VersionOf, SetTarget, Find, VersionTextGood;
  }

  lemma CutAt(s: string, i: nat)
    requires i < |s|
    ensures s == s[..i] + [s[i]] + s[i + 1..]
  {
  }

  lemma SpaceIsString(m: string, rest: string)
    ensures m + [' '] + rest == m + " " + rest
  {
  }

  lemma NoneBefore(s: string, i: nat, c: char)
    requires i <= |s| && forall j :: 0 <= j < i ==> s[j] != c
    ensures c !in s[..i]
  {
  }

  lemma CutAtSpace(s: string)
    requires Find(s, ' ') < |s|
    ensures var i := Find(s, ' '); s == s[..i] + " " + s[i + 1..] && ' ' !in s[..i]
  {
    hide Find;
    var i := Find(s, ' ');
    CutAt(s, i);
    SpaceIsString(s[..i], s[i + 1..]);
    NoneBefore(s, i, ' ');
  }

  lemma GoodHasParts(r: Request, line: string)
    requires ProcessRequestLine(r, line).1
    ensures Find(line, ' ') < |line|
    ensures var m, rest := line[..Find(line, ' ')], line[Find(line, ' ') + 1..];
            && MethodOf(m) != Invalid && Find(rest, ' ') < |rest|
            && VersionOf(rest[Find(rest, ' ') + 1..]) != Unknown
  {
    hide MethodOf, VersionOf, SetTarget, Find;
  }

  lemma JoinParts(m: string, target: string, v: string)
    ensures m + " " + (target + " " + v) == m + " " + target + " " + v
  {
  }

  lemma GoodIsSplit(r: Request, line: string)
    requires ProcessRequestLine(r, line).1
    ensures GoodLine(line)
  {
    hide ProcessRequestLine, MethodOf, VersionOf, VersionTextGood, Find, GoodLine;
    GoodHasParts(r, line);
    CutAtSpace(line);
    var m, rest := line[..Find(line, ' ')], line[Find(line, ' ') + 1..];
    CutAtSpace(rest);
    var target, v := rest[..Find(rest, ' ')], rest[Find(rest, ' ') + 1..];
    MethodExactly(m);
    VersionExactly(v);
    JoinParts(m, target, v);
    IsSplit(line, m, target, v);
  }

  lemma IsSplit(line: string, m: string, target: string, v: string)
    requires SplitsAs(line, m, target, v)
    ensures GoodLine(line)
  {
  }

  /** A request line is good if and only if it is one of the five method names, a space, a target without
      spaces, a space and a version of that form; whatever the request holds already. */
  lemma GoodLineExactly(r: Request, line: string)
    ensures ProcessRequestLine(r, line).1 <==> GoodLine(line)
  {
    if GoodLine(line) {
      var m, target, v :| SplitsAs(line, m, target, v);
      SplitIsGood(r, line, m, target, v);
    }
    if ProcessRequestLine(r, line).1 {
      GoodIsSplit(r, line);
    }
  }

  /** What a good line leaves in the request: the method named, the target up to its first question mark as
      path, the rest from the question mark on, if there is one, as query, and the version by its major
      number. */
  lemma GoodLineSets(r: Request, m: string, path: string, query: string, v: string)
    requires m in {"GET", "POST", "HEAD", "PUT", "DELETE"} && VersionTextGood(v)
    requires ' ' !in path && '?' !in path && ' ' !in query && (query != "" ==> query[0] == '?')
    ensures var q := ProcessRequestLine(r, m + " " + (path + query) + " " + v).0;
            && q.method_ == MethodOf(m) && q.path == path
            && q.query == (if query == "" then r.query else query)
            && q.version == (if v[5] == '2' then Http20 else Http10)
            && q.headers == r.headers && q.receiveTime == r.receiveTime
  {
    var line := m + " " + (path + query) + " " + v;
    assert SplitsAs(line, m, path + query, v);
    SplitIsGood(r, line, m, path + query, v);
    VersionExactly(v);
    TargetSplits(r.(method_ := MethodOf(m)), path, query);
    hide MethodOf, VersionOf, SetTarget, ProcessRequestLine;
  }

  lemma TargetSplits(r: Request, path: string, query: string)
    requires '?' !in path && (query != "" ==> query[0] == '?')
    ensures SetTarget(r, path + query) == r.(path := path, query := if query == "" then r.query else query)
  {
    if query == "" {
      FindNone(path, '?');
      assert path + query == path;
    } else {
      FindAfter(path, '?', query[1..]);
      assert path + query == path + ['?'] + query[1..];
      assert (path + query)[|path|..] == query;
    }
  }

  // ---------------------------------------------------------------- header lines

  predicate Blank(c: char) {
    c in {' ', '\t', '\n', '\r', 11 as char, 12 as char}
  }

  predicate AllBlank(s: string) {
    forall i :: 0 <= i < |s| ==> Blank(s[i])
  }

  lemma BlankExactly(c: char)
    ensures IsSpace(c) <==> Blank(c)
  {
  }

  lemma {:induction false} LeftTrimmed(s: string) returns (a: string)
    ensures s == a + TrimLeft(s) && AllBlank(a)
    ensures TrimLeft(s) != "" ==> !Blank(TrimLeft(s)[0])
  {
    if s != "" && IsSpace(s[0]) {
      BlankExactly(s[0]);
      var b := LeftTrimmed(s[1..]);
      a := [s[0]] + b;
    } else {
      a := "";
      if s != "" {
        BlankExactly(s[0]);
      }
    }
  }

  lemma {:induction false} RightTrimmed(s: string) returns (b: string)
    ensures s == TrimRight(s) + b && AllBlank(b)
    ensures TrimRight(s) != "" ==> !Blank(TrimRight(s)[|TrimRight(s)| - 1])
  {
    if s != "" && IsSpace(s[|s| - 1]) {
      BlankExactly(s[|s| - 1]);
      var c := RightTrimmed(s[..|s| - 1]);
      b := c + [s[|s| - 1]];
    } else {
      b := "";
      if s != "" {
        BlankExactly(s[|s| - 1]);
      }
    }
  }

  /** The value stored is the text after the colon without exactly the blanks at both its ends. */
  lemma TrimExactly(s: string) returns (a: string, b: string)
    ensures var t := TrimRight(TrimLeft(s));
            && s == a + t + b && AllBlank(a) && AllBlank(b)
            && (t != "" ==> !Blank(t[0]) && !Blank(t[|t| - 1]))
  {
    a := LeftTrimmed(s);
    b := RightTrimmed(TrimLeft(s));
    var t := TrimRight(TrimLeft(s));
    if t != "" {
      assert TrimLeft(s)[0] == t[0];
    }
  }

  /** A header line with a colon sets the field before its first colon; a line without one, empty or not, ends
      the headers and completes the request. */
  lemma HeaderLineExactly(r: Request, line: string, tail: string, time: int)
    requires NoCrlf(line)
    ensures var c := Context(ExpectHeaders, r);
            var s := line + CRLF + tail;
            && (':' !in line ==> Parse(c, s, time) == Outcome(true, Context(GotAll, r), tail))
            && (':' in line ==>
                 exists k :: 0 <= k < |line| && line[k] == ':' && ':' !in line[..k]
                   && Parse(c, s, time) ==
                      Parse(Context(ExpectHeaders,
                        r.(headers := r.headers[line[..k] := TrimRight(TrimLeft(line[k + 1..]))])), tail, time))
  {
    LineEnd(line, tail);
    hide FindCrlf;
    var k := Find(line, ':');
    if ':' !in line {
      FindNone(line, ':');
    } else {
      assert k < |line|;
      assert ':' !in line[..k];
    }
  }

  // ---------------------------------------------------------------- rejections

  /** What makes the parser fail: a whole line at the front, while it expects a request line, that is not good. */
  ghost predicate BadFront(c: Context, s: string) {
    c.state.ExpectRequestLine? && FindCrlf(s).Some? && FindCrlf(s).value <= |s| && !GoodLine(s[..FindCrlf(s).value])
  }

  lemma {:induction false} HeadersNeverFail(c: Context, s: string, time: int)
    requires c.state.ExpectHeaders?
    ensures Parse(c, s, time).ok
    decreases |s|
  {
    match FindCrlf(s)
    case None =>
    case Some(i) =>
      var colon := Find(s[..i], ':');
      if colon < i {
        HeadersNeverFail(Context(ExpectHeaders, AddHeader(c.request, s[..i], colon)), s[i + 2..], time);
      }
  }

  /** Parsing fails if and only if the front of the input is a whole line that is no good request line; never
      in headers. */
  lemma FailsExactly(c: Context, s: string, time: int)
    requires Parsable(c)
    ensures !Parse(c, s, time).ok <==> BadFront(c, s)
    ensures BadFront(c, s) ==> Parse(c, s, time).rest == s
  {
    match FindCrlf(s)
    case None =>
    case Some(i) =>
      if c.state.ExpectRequestLine? {
        GoodLineExactly(c.request, s[..i]);
        var (r, good) := ProcessRequestLine(c.request, s[..i]);
        if good {
          HeadersNeverFail(Context(ExpectHeaders, r.(receiveTime := time)), s[i + 2..], time);
        }
      } else {
        HeadersNeverFail(c, s, time);
      }
  }

  /** The server answers a message with 400 if and only if then; it half-closes and keeps the bytes. */
  lemma RejectsExactly(c: Context, s: string, time: int)
    requires Parsable(c)
    ensures OnMessage(c, s, time).2 == [BadRequest] <==> BadFront(c, s)
    ensures BadFront(c, s) ==> OnMessage(c, s, time).1 == s
    ensures !BadFront(c, s) ==> forall r :: r in OnMessage(c, s, time).2 ==> r.Serve?
  {
    FailsExactly(c, s, time);
    hide Parse;
  }

  /** And every later message is answered with 400 again. */
  lemma {:induction false} RejectsForEver(c: Context, s: string, chunks: seq<Chunk>)
    requires Parsable(c) && BadFront(c, s)
    ensures Serving(c, s, chunks).2 == seq(|chunks|, _ => BadRequest)
    decreases |chunks|
  {
    if chunks != [] {
      var t, x := chunks[0].time, s + chunks[0].bytes;
      CrlfInPrefix(s, chunks[0].bytes);
      assert x[..FindCrlf(s).value] == s[..FindCrlf(s).value];
      RejectsExactly(c, x, t);
      StillBad(c, x, t);
      AddReactions(c, s, chunks);
      hide Serving, OnMessage, Parse, FindCrlf;
      RejectsForEver(OnMessage(c, x, t).0, x, chunks[1..]);
    }
  }

  lemma StillBad(c: Context, s: string, time: int)
    requires Parsable(c) && BadFront(c, s)
    ensures Parsable(OnMessage(c, s, time).0) && BadFront(OnMessage(c, s, time).0, s)
  {
    FailsExactly(c, s, time);
    hide GoodLine;
  }
}
