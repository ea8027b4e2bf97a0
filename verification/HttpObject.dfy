/** The classes of http/HttpRequestff.h and http/HttpContextff.h over the byte buffer, with their loops.  Each
    method is proved to compute the function of module Http of the same name. */
module HttpObject {
  import opened Common
  import opened Buffer
  import H = Http

  class HttpRequestff {
    var method_: H.Method
    var version: H.Version
    var path: string
    var query: string
    var receiveTime: int
    var headers: map<string, string>

    ghost function Value(): H.Request
      reads this
    {
      H.Request(method_, version, path, query, receiveTime, headers)
    }

    constructor ()
      ensures Value() == H.EmptyRequest()
    {
      method_, version, path, query, receiveTime, headers := H.Invalid, H.Unknown, "", "", 0, map[];
    }

    method SetMethod(text: string) returns (ok: bool)
      modifies this`method_
      ensures Value() == old(Value()).(method_ := H.MethodOf(text))
      ensures ok <==> text in {"GET", "POST", "HEAD", "PUT", "DELETE"}
      ensures ok <==> method_ != H.Invalid
      ensures (method_ == H.Get <==> text == "GET") && (method_ == H.Post <==> text == "POST")
      ensures (method_ == H.Head <==> text == "HEAD") && (method_ == H.Put <==> text == "PUT")
    {
      if text == "GET" { method_ := H.Get; }
      else if text == "POST" { method_ := H.Post; }
      else if text == "HEAD" { method_ := H.Head; }
      else if text == "PUT" { method_ := H.Put; }
      else if text == "DELETE" { method_ := H.Delete; }
      else { method_ := H.Invalid; }
      ok := method_ != H.Invalid;
    }

    /** Field name up to the colon; value with the white space around it trimmed by two loops. */
    method AddHeader(line: string, colon: nat)
      requires colon < |line|
      modifies this`headers
      ensures Value() == H.AddHeader(old(Value()), line, colon)
    {
      var start := colon + 1;
      while start < |line| && H.IsSpace(line[start])
        invariant colon + 1 <= start <= |line|
        invariant H.TrimLeft(line[start..]) == H.TrimLeft(line[colon + 1..])
      {
        assert line[start..][1..] == line[start + 1..];
        start := start + 1;
      }
      var value := line[start..];
      while value != "" && H.IsSpace(value[|value| - 1])
        invariant H.TrimRight(value) == H.TrimRight(line[start..])
        decreases |value|
      {
        value := value[..|value| - 1];
      }
      headers := headers[line[..colon] := value];
    }
  }

  /** `std::find` on a range. */
  method FindChar(s: string, c: char) returns (i: nat)
    ensures i == H.Find(s, c)
  {
    i := 0;
    assert s[0..] == s;
    while i < |s| && s[i] != c
      invariant 0 <= i <= |s|
      invariant i + H.Find(s[i..], c) == H.Find(s, c)
    {
      assert s[i..][1..] == s[i + 1..];
      i := i + 1;
    }
  }

  class HttpContextff {
    var state: H.ParseState
    const request: HttpRequestff

    ghost function Value(): H.Context
      reads this, request
    {
      H.Context(state, request.Value())
    }

    constructor ()
      ensures Value() == H.NewContext() && fresh(request)
    {
      state := H.ExpectRequestLine;
      request := new HttpRequestff();
    }

    method ProcessRequestLine(line: string) returns (succeed: bool)
      modifies request
      ensures (request.Value(), succeed) == H.ProcessRequestLine(old(request.Value()), line)
    {
      hide H.MethodOf, H.VersionOf, H.SetTarget, H.Find;
      succeed := false;
      var space := FindChar(line, ' ');
      if space != |line| {
        var known := request.SetMethod(line[..space]);
        if known {
          var rest := line[space + 1..];
          var end := FindChar(rest, ' ');
          if end != |rest| {
            SetTarget(rest[..end]);
            succeed := SetVersion(rest[end + 1..]);
          }
        }
      }
    }

    method SetTarget(target: string)
      modifies request
      ensures request.Value() == H.SetTarget(old(request.Value()), target)
    {
      var question := FindChar(target, '?');
      if question != |target| {
        request.path := target[..question];
        request.query := target[question..];
      } else {
        request.path := target;
      }
    }

    /** The version test: eight characters, "HTTP/", and then only two of the three that follow are compared. */
    method SetVersion(text: string) returns (succeed: bool)
      modifies request
      ensures succeed <==> !H.VersionOf(text).Unknown?
      ensures request.Value() ==
        if succeed then old(request.Value()).(version := H.VersionOf(text)) else old(request.Value())
    {
      succeed := |text| == 8 && text[..5] == "HTTP/";
      if succeed {
        if text[5..7] == "1.0"[..2] { request.version := H.Http10; }
        else if text[5..7] == "1.1"[..2] { request.version := H.Http11; }
        else if text[5..7] == "2.0"[..2] { request.version := H.Http20; }
        else { succeed := false; }
      }
    }

    /** The loop of `parseRequest`.  Every turn that goes on takes a line out of the buffer, so it ends; it
        would not from the state `kGotAll`, which the caller's reset rules out. */
    method ParseRequest(buffer: Bufferff, time: int) returns (ok: bool)
      requires H.Parsable(Value()) && buffer.Valid()
      modifies this`state, request, buffer
      ensures buffer.Valid() && buffer.buf == old(buffer.buf)
      ensures H.Outcome(ok, Value(), buffer.Contents()) == H.Parse(old(Value()), old(buffer.Contents()), time)
    {
      ok := true;
      var hasMore := true;
      ghost var goal := H.Parse(Value(), buffer.Contents(), time);
      while hasMore
        invariant buffer.Valid() && buffer.buf == old(buffer.buf)
        invariant hasMore ==> ok && H.Parsable(Value()) && H.Parse(Value(), buffer.Contents(), time) == goal
        invariant !hasMore ==> H.Outcome(ok, Value(), buffer.Contents()) == goal
        decreases if hasMore then buffer.ReadableBytes() + 1 else 0
      {
        hasMore, ok := ParseLine(buffer, time);
      }
    }

    /** One turn of the loop. */
    method ParseLine(buffer: Bufferff, time: int) returns (hasMore: bool, ok: bool)
      requires H.Parsable(Value()) && buffer.Valid()
      modifies this`state, request, buffer
      ensures buffer.Valid() && buffer.buf == old(buffer.buf)
      ensures hasMore ==> ok && H.Parsable(Value()) && buffer.ReadableBytes() < old(buffer.ReadableBytes())
      ensures (if hasMore then H.Parse(Value(), buffer.Contents(), time)
        else H.Outcome(ok, Value(), buffer.Contents()))
              == H.Parse(old(Value()), old(buffer.Contents()), time)
    {
      hide H.Parse, H.ProcessRequestLine, H.AddHeader, H.Find, FindCrlf;
      ghost var c, s := Value(), buffer.Contents();
      var crlf := buffer.FindCRLF();
      if crlf.None? {
        hasMore, ok := false, true;
        NoLine(c, s, time);
      } else if state == H.ExpectRequestLine {
        ok := TakeRequestLine(buffer, crlf.value, time);
        hasMore := ok;
        RequestLineTurn(c, s, time);
      } else {
        ok := true;
        hasMore := TakeHeaderLine(buffer, crlf.value);
        HeaderLineTurn(c, s, time);
      }
    }

    method TakeRequestLine(buffer: Bufferff, crlf: nat, time: int) returns (ok: bool)
      requires state.ExpectRequestLine? && buffer.Valid() && FindCrlf(buffer.Contents()) == Some(crlf)
      modifies this`state, request, buffer
      ensures buffer.Valid() && buffer.buf == old(buffer.buf)
      ensures ok == H.ProcessRequestLine(old(request.Value()), old(buffer.Contents())[..crlf]).1
      ensures var r := H.ProcessRequestLine(old(request.Value()), old(buffer.Contents())[..crlf]).0;
              if ok then Value() == H.Context(H.ExpectHeaders, r.(receiveTime := time))
                      && buffer.Contents() == old(buffer.Contents())[crlf + 2..]
              else Value() == H.Context(H.ExpectRequestLine, r) && buffer.Contents() == old(buffer.Contents())
    {
      var line: string := buffer.buf[buffer.readerIndex..buffer.readerIndex + crlf];
      assert line == buffer.Contents()[..crlf];
      ok := ProcessRequestLine(line);
      if ok {
        request.receiveTime := time;
        buffer.Retrieve(crlf + 2);
        state := H.ExpectHeaders;
      }
    }

    method TakeHeaderLine(buffer: Bufferff, crlf: nat) returns (more: bool)
      requires state.ExpectHeaders? && buffer.Valid() && FindCrlf(buffer.Contents()) == Some(crlf)
      modifies this`state, request, buffer
      ensures buffer.Valid() && buffer.buf == old(buffer.buf)
      ensures buffer.Contents() == old(buffer.Contents())[crlf + 2..]
      ensures var line := old(buffer.Contents())[..crlf];
              && (more <==> H.Find(line, ':') < crlf)
              && Value() == if more
                then H.Context(H.ExpectHeaders, H.AddHeader(old(request.Value()), line, H.Find(line, ':')))
                            else H.Context(H.GotAll, old(request.Value()))
    {
      var line: string := buffer.buf[buffer.readerIndex..buffer.readerIndex + crlf];
      assert line == buffer.Contents()[..crlf];
      var colon := FindChar(line, ':');
      more := colon != |line|;
      if more {
        request.AddHeader(line, colon);
      } else {
        state := H.GotAll;
      }
      buffer.Retrieve(crlf + 2);
    }

    /** `reset`, after a request has been served. */
    method Reset()
      modifies this`state, request
      ensures Value() == H.NewContext() && H.Parsable(Value())
    {
      state := H.ExpectRequestLine;
      request.method_, request.version := H.Invalid, H.Unknown;
      request.path, request.query, request.receiveTime, request.headers := "", "", 0, map[];
    }
  }

  lemma NoLine(c: H.Context, s: string, time: int)
    requires H.Parsable(c) && FindCrlf(s).None?
    ensures H.Parse(c, s, time) == H.Outcome(true, c, s)
  {
  }

  lemma RequestLineTurn(c: H.Context, s: string, time: int)
    requires c.state.ExpectRequestLine? && FindCrlf(s).Some? && FindCrlf(s).value + 2 <= |s|
    ensures var i := FindCrlf(s).value;
            var (r, good) := H.ProcessRequestLine(c.request, s[..i]);
            H.Parse(c, s, time) ==
              if good then H.Parse(H.Context(H.ExpectHeaders, r.(receiveTime := time)), s[i + 2..], time)
              else H.Outcome(false, H.Context(H.ExpectRequestLine, r), s)
  {
  }

  lemma HeaderLineTurn(c: H.Context, s: string, time: int)
    requires c.state.ExpectHeaders? && FindCrlf(s).Some? && FindCrlf(s).value + 2 <= |s|
    ensures var i := FindCrlf(s).value;
            var colon := H.Find(s[..i], ':');
            H.Parse(c, s, time) ==
              if colon < i then
                H.Parse(H.Context(H.ExpectHeaders, H.AddHeader(c.request, s[..i], colon)), s[i + 2..], time)
              else H.Outcome(true, H.Context(H.GotAll, c.request), s[i + 2..])
  {
  }
}
