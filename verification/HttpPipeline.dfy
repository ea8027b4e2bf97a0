/** Requests sent back to back and cut into messages anywhere, also across their borders:
    http/HttpServerff.cpp takes at most one request out of the buffer for each message, and half-closes after
    most of them.  Which requests reach the application, and which are answered. */
module HttpPipeline {
  import opened Common
  import opened Buffer
  import opened Http
  import opened HttpTheorems
  import opened HttpServing

  function Texts(qs: seq<Sent>): string {
    if qs == [] then "" else SentText(qs[0]) + Texts(qs[1..])
  }

  ghost predicate AllGood(qs: seq<Sent>) {
    forall q :: q in qs ==> Good(q)
  }

  // ---------------------------------------------------------------- where the parser stands

  /** The parser with its leftover bytes stands where a new one would stand after `unserved`. */
  ghost predicate StandsAt(c: Context, pending: string, unserved: string) {
    && Parsable(c)
    && forall x: string ::
      TimelessOutcome(Parse(c, pending + x, 0)) == TimelessOutcome(Parse(NewContext(), unserved + x, 0))
  }

  lemma RestartStands(rest: string)
    ensures StandsAt(NewContext(), rest, rest)
  {
  }

  lemma PauseAgrees(c: Context, pending: string, unserved: string, x: string, time: int, y: string)
    requires StandsAt(c, pending, unserved) && !Final(Parse(c, pending + x, 0))
    ensures var p := Parse(c, pending + x, time);
            && Parsable(p.context)
            && TimelessOutcome(Parse(p.context, p.rest + y, 0)) ==
              TimelessOutcome(Parse(NewContext(), unserved + x + y, 0))
  {
    hide Parse;
    var s := pending + x;
    ParseTimeless(c, c, s, 0, time);
    ParseSplit(c, s, y, 0);
    var p, z := Parse(c, s, time), Parse(c, s, 0);
    ParseTimeless(p.context, z.context, z.rest + y, 0, 0);
    assert pending + (x + y) == s + y && unserved + (x + y) == unserved + x + y;
    assert TimelessOutcome(Parse(c, pending + (x + y), 0)) ==
      TimelessOutcome(Parse(NewContext(), unserved + (x + y), 0));
  }

  /** After a message that completes nothing it stands behind that message. */
  lemma PauseStands(c: Context, pending: string, unserved: string, x: string, time: int)
    requires StandsAt(c, pending, unserved) && !Final(Parse(c, pending + x, 0))
    ensures var p := Parse(c, pending + x, time);
            OnMessage(c, pending + x, time) == (p.context, p.rest, []) && StandsAt(p.context, p.rest, unserved + x)
  {
    ParseTimeless(c, c, pending + x, 0, time);
    hide Parse;
    var p := Parse(c, pending + x, time);
    PauseAgrees(c, pending, unserved, x, time, "");
    forall y: string
      ensures TimelessOutcome(Parse(p.context, p.rest + y, 0)) ==
        TimelessOutcome(Parse(NewContext(), unserved + x + y, 0))
    {
      PauseAgrees(c, pending, unserved, x, time, y);
    }
  }

  /** A message that brings the rest of a request, and perhaps more, has that request served and keeps the rest. */
  lemma WholeRequestServed(c: Context, pending: string, unserved: string, x: string, time: int, q: Sent, rest: string)
    requires StandsAt(c, pending, unserved) && Good(q) && unserved + x == SentText(q) + rest
    ensures OnMessage(c, pending + x, time).0 == NewContext() && OnMessage(c, pending + x, time).1 == rest
    ensures TimelessAll(OnMessage(c, pending + x, time).2) == [Serve(Seen(q))]
  {
    RoundTrip(q.m, q.path, q.query, q.v, q.hs, rest, 0);
    ParseTimeless(c, c, pending + x, 0, time);
    hide Parse, Render;
  }

  /** Part of a request completes nothing. */
  lemma PartIsNotFinal(q: Sent, part: string, z: string)
    requires Good(q) && SentText(q) == part + z && z != ""
    ensures !Final(Parse(NewContext(), part, 0))
  {
    RoundTrip(q.m, q.path, q.query, q.v, q.hs, "", 0);
    assert SentText(q) + "" == SentText(q);
    ParseSplit(NewContext(), part, z, 0);
    hide Parse, Render;
  }

  lemma NothingIsNotFinal()
    ensures !Final(Parse(NewContext(), "", 0))
  {
  }

  // ---------------------------------------------------------------- how many requests are served

  /** How many requests messages of these sizes get served, `have` bytes waiting: one for each message that
      finds a whole request in the buffer. */
  function ServedCount(have: nat, chunks: seq<Chunk>, qs: seq<Sent>): (n: nat)
    ensures n <= |chunks| && n <= |qs|
    decreases |chunks|
  {
    if chunks == [] then 0
    else if qs != [] && have + |chunks[0].bytes| >= |SentText(qs[0])| then
      1 + ServedCount(have + |chunks[0].bytes| - |SentText(qs[0])|, chunks[1..], qs[1..])
    else ServedCount(have + |chunks[0].bytes|, chunks[1..], qs)
  }

  lemma TextsSplit(unserved: string, x: string, later: string, qs: seq<Sent>)
    requires qs != [] && unserved + x + later == Texts(qs)
    ensures |unserved + x| >= |SentText(qs[0])| ==>
      var rest := (unserved + x)[|SentText(qs[0])|..];
      unserved + x == SentText(qs[0]) + rest && rest + later == Texts(qs[1..])
    ensures |unserved + x| < |SentText(qs[0])| ==>
      SentText(qs[0]) == (unserved + x) + SentText(qs[0])[|unserved + x|..]
  {
    var t, r := SentText(qs[0]), Texts(qs[1..]);
    var u := unserved + x;
    assert u + later == t + r;
    if |u| >= |t| {
      assert u[..|t|] == (u + later)[..|t|] == (t + r)[..|t|] == t;
      assert u[|t|..] + later == (u + later)[|t|..] == (t + r)[|t|..] == r;
    } else {
      assert u == (u + later)[..|u|] == (t + r)[..|u|] == t[..|u|];
    }
  }

  /** From where the parser stands the application sees the next requests, in order, as many as the messages
      allow. */
  lemma {:induction false} ServedFrom(c: Context, pending: string, unserved: string, chunks: seq<Chunk>,
    qs: seq<Sent>)
    requires StandsAt(c, pending, unserved) && AllGood(qs)
    requires unserved + Concat(chunks) == Texts(qs)
    ensures TimelessAll(Serving(c, pending, chunks).2) == SeenAll(qs[..ServedCount(|unserved|, chunks, qs)])
    decreases |chunks|
  {
    hide Parse, Serving, OnMessage, StandsAt, Good, SentText, Texts, TimelessAll, SeenAll;
    StandsParsable(c, pending, unserved);
    if chunks == [] {
      NoMessages(c, pending);
      NothingSeen(qs);
    } else {
      AddReactions(c, pending, chunks);
      var x, t := chunks[0].bytes, chunks[0].time;
      assert unserved + (x + Concat(chunks[1..])) == unserved + x + Concat(chunks[1..]);
      if qs != [] && |unserved| + |x| >= |SentText(qs[0])| {
        var rest := TakesRequest(c, pending, unserved, x, Concat(chunks[1..]), t, qs);
        ServedFrom(NewContext(), rest, rest, chunks[1..], qs[1..]);
        var m := OnMessage(c, pending + x, t);
        FirstOf(m.2, Serving(m.0, m.1, chunks[1..]).2, qs, ServedCount(|rest|, chunks[1..], qs[1..]));
      } else {
        NotYet(c, pending, unserved, x, Concat(chunks[1..]), t, qs);
        var m := OnMessage(c, pending + x, t);
        ServedFrom(m.0, m.1, unserved + x, chunks[1..], qs);
      }
    }
  }

  lemma NothingSeen(qs: seq<Sent>)
    ensures TimelessAll([]) == SeenAll(qs[..0])
  {
  }

  lemma TakesRequest(c: Context, pending: string, unserved: string, x: string, later: string, time: int,
    qs: seq<Sent>)
    returns (rest: string)
    requires StandsAt(c, pending, unserved) && AllGood(qs) && unserved + x + later == Texts(qs)
    requires qs != [] && |unserved| + |x| >= |SentText(qs[0])|
    ensures AllGood(qs[1..]) && rest + later == Texts(qs[1..]) && |rest| == |unserved| + |x| - |SentText(qs[0])|
    ensures StandsAt(NewContext(), rest, rest) && Parsable(c)
    ensures var m := OnMessage(c, pending + x, time);
            m.0 == NewContext() && m.1 == rest && TimelessAll(m.2) == [Serve(Seen(qs[0]))]
  {
    hide Parse, OnMessage, StandsAt, Good, SentText;
    StandsParsable(c, pending, unserved);
    rest := (unserved + x)[|SentText(qs[0])|..];
    TextsSplit(unserved, x, later, qs);
    WholeRequestServed(c, pending, unserved, x, time, qs[0], rest);
    RestartStands(rest);
  }

  lemma StandsParsable(c: Context, pending: string, unserved: string)
    requires StandsAt(c, pending, unserved)
    ensures Parsable(c)
  {
  }

  lemma NotYet(c: Context, pending: string, unserved: string, x: string, later: string, time: int, qs: seq<Sent>)
    requires StandsAt(c, pending, unserved) && AllGood(qs) && unserved + x + later == Texts(qs)
    requires qs != [] ==> |unserved| + |x| < |SentText(qs[0])|
    ensures Parsable(c)
    ensures var m := OnMessage(c, pending + x, time); m.2 == [] && StandsAt(m.0, m.1, unserved + x)
  {
    if qs == [] {
      assert unserved + x == "";
      NothingIsNotFinal();
    } else {
      TextsSplit(unserved, x, later, qs);
      PartIsNotFinal(qs[0], unserved + x, SentText(qs[0])[|unserved + x|..]);
    }
    assert TimelessOutcome(Parse(c, pending + x, 0)) == TimelessOutcome(Parse(NewContext(), unserved + x, 0));
    assert !Final(Parse(c, pending + x, 0)) by { hide Parse; }
    PauseStands(c, pending, unserved, x, time);
  }

  lemma FirstOf(first: seq<Reaction>, later: seq<Reaction>, qs: seq<Sent>, n: nat)
    requires qs != [] && n <= |qs| - 1
    requires TimelessAll(first) == [Serve(Seen(qs[0]))] && TimelessAll(later) == SeenAll(qs[1..][..n])
    ensures TimelessAll(first + later) == SeenAll(qs[..n + 1])
  {
    assert TimelessAll(first + later) == TimelessAll(first) + TimelessAll(later);
    assert qs[..n + 1] == [qs[0]] + qs[1..][..n];
    assert SeenAll(qs[..n + 1]) == [Serve(Seen(qs[0]))] + SeenAll(qs[1..][..n]);
  }

  /** However the bytes of requests sent back to back are cut into messages, the requests served are the first
      ones, in order, each once, with the fields that were sent. */
  lemma ServedInOrder(qs: seq<Sent>, chunks: seq<Chunk>)
    requires AllGood(qs) && Concat(chunks) == Texts(qs)
    ensures TimelessAll(Serving(NewContext(), "", chunks).2) == SeenAll(qs[..ServedCount(0, chunks, qs)])
  {
    RestartStands("");
    assert "" + Concat(chunks) == Texts(qs);
    ServedFrom(NewContext(), "", "", chunks, qs);
  }

  // ---------------------------------------------------------------- exactly when all of them are

  function Bytes(chunks: seq<Chunk>): nat {
    |Concat(chunks)|
  }

  /** How many whole requests `b` bytes are. */
  function Complete(b: nat, qs: seq<Sent>): (n: nat)
    ensures n <= |qs|
  {
    if qs == [] || b < |SentText(qs[0])| then 0 else 1 + Complete(b - |SentText(qs[0])|, qs[1..])
  }

  /** After any number of messages there are at least as many to come as requests not yet arrived as a whole. */
  ghost predicate EnoughToCome(have: nat, chunks: seq<Chunk>, qs: seq<Sent>) {
    && |qs| <= |chunks|
    && forall k :: 1 <= k <= |chunks| ==> |qs| <= Complete(have + Bytes(chunks[..k]), qs) + (|chunks| - k)
  }

  lemma BytesOfFirst(chunks: seq<Chunk>, k: nat)
    requires chunks != [] && k < |chunks|
    ensures Bytes(chunks[..k + 1]) == |chunks[0].bytes| + Bytes(chunks[1..][..k])
  {
    assert chunks[..k + 1][0] == chunks[0] && chunks[..k + 1][1..] == chunks[1..][..k];
  }

  lemma {:induction false} AllServedFrom(have: nat, chunks: seq<Chunk>, qs: seq<Sent>)
    ensures ServedCount(have, chunks, qs) == |qs| <==> EnoughToCome(have, chunks, qs)
    decreases |chunks|
  {
    hide SentText;
    if chunks != [] && qs != [] {
      var h, rest := have + |chunks[0].bytes|, chunks[1..];
      if h >= |SentText(qs[0])| {
        AllServedFrom(h - |SentText(qs[0])|, rest, qs[1..]);
        StepServed(have, chunks, qs);
      } else {
        AllServedFrom(h, rest, qs);
        StepWaits(have, chunks, qs);
      }
    }
  }

  lemma StepServed(have: nat, chunks: seq<Chunk>, qs: seq<Sent>)
    requires chunks != [] && qs != [] && have + |chunks[0].bytes| >= |SentText(qs[0])|
    ensures EnoughToCome(have, chunks, qs) <==>
            EnoughToCome(have + |chunks[0].bytes| - |SentText(qs[0])|, chunks[1..], qs[1..])
  {
    hide SentText, Bytes;
    var h, rest, t := have + |chunks[0].bytes|, chunks[1..], |SentText(qs[0])|;
    forall k: nat | k < |chunks|
      ensures Complete(have + Bytes(chunks[..k + 1]), qs) == 1 + Complete(h - t + Bytes(rest[..k]), qs[1..])
    {
      BytesOfFirst(chunks, k);
    }
    if EnoughToCome(have, chunks, qs) {
      forall k | 1 <= k <= |rest| ensures |qs| - 1 <= Complete(h - t + Bytes(rest[..k]), qs[1..]) + (|rest| - k) {
        assert |qs| <= Complete(have + Bytes(chunks[..k + 1]), qs) + (|chunks| - (k + 1));
      }
    }
    if EnoughToCome(h - t, rest, qs[1..]) {
      forall k | 1 <= k <= |chunks| ensures |qs| <= Complete(have + Bytes(chunks[..k]), qs) + (|chunks| - k) {
        assert Complete(have + Bytes(chunks[..(k - 1) + 1]), qs) ==
          1 + Complete(h - t + Bytes(rest[..k - 1]), qs[1..]);
      }
    }
  }

  lemma StepWaits(have: nat, chunks: seq<Chunk>, qs: seq<Sent>)
    requires chunks != [] && qs != [] && have + |chunks[0].bytes| < |SentText(qs[0])|
    ensures EnoughToCome(have, chunks, qs) <==> EnoughToCome(have + |chunks[0].bytes|, chunks[1..], qs)
  {
    hide SentText;
    var h, rest := have + |chunks[0].bytes|, chunks[1..];
    forall k: nat | k < |chunks| ensures have + Bytes(chunks[..k + 1]) == h + Bytes(rest[..k]) {
      BytesOfFirst(chunks, k);
    }
    assert rest[..0] == [] && Bytes([]) == 0 && Complete(h, qs) == 0;
    if EnoughToCome(have, chunks, qs) {
      assert |qs| <= Complete(have + Bytes(chunks[..0 + 1]), qs) + (|chunks| - 1);
      forall k | 1 <= k <= |rest| ensures |qs| <= Complete(h + Bytes(rest[..k]), qs) + (|rest| - k) {
        assert |qs| <= Complete(have + Bytes(chunks[..k + 1]), qs) + (|chunks| - (k + 1));
      }
    }
    if EnoughToCome(h, rest, qs) {
      forall k | 1 <= k <= |chunks| ensures |qs| <= Complete(have + Bytes(chunks[..k]), qs) + (|chunks| - k) {
        assert have + Bytes(chunks[..(k - 1) + 1]) == h + Bytes(rest[..k - 1]);
      }
    }
  }

  /** Every request sent is served if and only if, after any number of messages, there are at least as many to
      come as requests that have not yet arrived as a whole.  Otherwise the last ones stay in the buffer until
      another message comes. */
  lemma AllServedExactly(qs: seq<Sent>, chunks: seq<Chunk>)
    requires AllGood(qs) && Concat(chunks) == Texts(qs)
    ensures TimelessAll(Serving(NewContext(), "", chunks).2) == SeenAll(qs) <==> EnoughToCome(0, chunks, qs)
  {
    ServedInOrder(qs, chunks);
    AllServedFrom(0, chunks, qs);
    var n := ServedCount(0, chunks, qs);
    if n == |qs| {
      assert qs[..n] == qs;
    } else {
      assert |SeenAll(qs[..n])| == n != |SeenAll(qs)|;
    }
  }

  // ---------------------------------------------------------------- which requests are answered

  /** `close` in `HttpServerff::onRequest`: what the response is told before the application sees it. */
  predicate Closes(r: Request) {
    var connection := if "Connection" in r.headers then r.headers["Connection"] else "";
    connection == "close" || (r.version.Http10? && connection != "Keep-Alive")
  }

  /** What an application leaves in its response about closing, given all it has seen of the connection: it may keep
      state of its own and look at receive times. */
  type App = seq<Reaction> -> bool

  /** The application leaves the i-th response closing. */
  predicate LeavesClosing(rs: seq<Reaction>, i: nat, app: App) {
    i < |rs| && app(rs[..i + 1])
  }

  /** Whether the server shuts the connection down after the i-th reaction. */
  predicate Ends(rs: seq<Reaction>, i: nat, app: App)
    requires i < |rs|
  {
    rs[i].BadRequest? || LeavesClosing(rs, i, app)
  }

  /** How many of the reactions, from the i-th on, find the connection open when they `send`. */
  function AnsweredFrom(rs: seq<Reaction>, i: nat, app: App): (n: nat)
    requires i <= |rs|
    ensures n <= |rs| - i
    decreases |rs| - i
  {
    if i == |rs| then 0 else if Ends(rs, i, app) then 1 else 1 + AnsweredFrom(rs, i + 1, app)
  }

  function AnsweredCount(rs: seq<Reaction>, app: App): nat {
    AnsweredFrom(rs, 0, app)
  }

  lemma {:induction false} AnsweredUntilEnd(rs: seq<Reaction>, from: nat, i: nat, app: App)
    requires from <= i && from <= |rs|
    ensures i < from + AnsweredFrom(rs, from, app) <==> i < |rs| && forall j :: from <= j < i ==> !Ends(rs, j, app)
    decreases |rs| - from
  {
    if from < |rs| && from < i && !Ends(rs, from, app) {
      AnsweredUntilEnd(rs, from + 1, i, app);
    }
  }

  /** For any application, the i-th request sent is answered if and only if it is served and the application
      has left no earlier response closing. */
  lemma AnsweredExactly(qs: seq<Sent>, chunks: seq<Chunk>, app: App, i: nat)
    requires AllGood(qs) && Concat(chunks) == Texts(qs)
    ensures var rs := Serving(NewContext(), "", chunks).2;
            && |rs| == ServedCount(0, chunks, qs)
            && (i < AnsweredCount(rs, app) <==>
                 i < ServedCount(0, chunks, qs) && forall j :: 0 <= j < i ==> !LeavesClosing(rs, j, app))
  {
    hide Serving, Seen;
    ServedInOrder(qs, chunks);
    var rs, n := Serving(NewContext(), "", chunks).2, ServedCount(0, chunks, qs);
    AnsweredUntilEnd(rs, 0, i, app);
    assert |TimelessAll(rs)| == |rs| && |SeenAll(qs[..n])| == n;
    forall j | 0 <= j < n ensures Ends(rs, j, app) <==> LeavesClosing(rs, j, app) {
      SeenAt(rs, qs[..n], j);
    }
  }

  lemma SeenAt(rs: seq<Reaction>, qs: seq<Sent>, j: nat)
    requires TimelessAll(rs) == SeenAll(qs) && j < |qs|
    ensures |rs| == |qs| && rs[j].Serve? && rs[j].request.(receiveTime := 0) == Seen(qs[j])
  {
    hide Seen;
    assert |TimelessAll(rs)| == |rs| && |SeenAll(qs)| == |qs|;
    assert TimelessAll(rs)[j] == SeenAll(qs)[j];
  }

  /** An application that leaves the response as it was made. */
  function LeaveIt(rs: seq<Reaction>): bool {
    rs != [] && rs[|rs| - 1].Serve? && Closes(rs[|rs| - 1].request)
  }

  /** Such an application answers the i-th request if and only if it is served and every earlier one, as it
      was sent, asked to keep the connection. */
  lemma AnsweredWhileKept(qs: seq<Sent>, chunks: seq<Chunk>, i: nat)
    requires AllGood(qs) && Concat(chunks) == Texts(qs)
    ensures i < AnsweredCount(Serving(NewContext(), "", chunks).2, LeaveIt) <==>
            i < ServedCount(0, chunks, qs) && forall j :: 0 <= j < i ==> KeepsAlive(qs[j])
  {
    hide Serving, Seen, Closes, KeepsAlive;
    ServedInOrder(qs, chunks);
    AnsweredExactly(qs, chunks, LeaveIt, i);
    var rs, n := Serving(NewContext(), "", chunks).2, ServedCount(0, chunks, qs);
    forall j | 0 <= j < n ensures LeavesClosing(rs, j, LeaveIt) <==> !KeepsAlive(qs[j]) {
      SeenAt(rs, qs[..n], j);
      assert qs[j] in qs;
      TimeDoesNotClose(rs[j].request, Seen(qs[j]));
      KeptAliveExactly(qs[j]);
    }
  }

  lemma TimeDoesNotClose(r: Request, q: Request)
    requires r.(receiveTime := 0) == q
    ensures Closes(r) <==> Closes(q)
  {
    assert r.headers == q.headers && r.version == q.version;
  }

  /** The value the application finds under "Connection". */
  function ConnectionOf(hs: seq<Header>): string {
    if hs == [] then ""
    else if hs[|hs| - 1].name == "Connection" then hs[|hs| - 1].value
    else ConnectionOf(hs[..|hs| - 1])
  }

  predicate KeepsAlive(q: Sent) {
    ConnectionOf(q.hs) == "Keep-Alive" || (q.v.Http20? && ConnectionOf(q.hs) != "close")
  }

  lemma {:induction false} HeaderMapSnoc(hs: seq<Header>, h: Header, m: map<string, string>)
    ensures HeaderMap(hs + [h], m) == HeaderMap(hs, m)[h.name := h.value]
    decreases |hs|
  {
    if hs == [] {
      assert [h][1..] == [];
    } else {
      assert (hs + [h])[0] == hs[0] && (hs + [h])[1..] == hs[1..] + [h];
      HeaderMapSnoc(hs[1..], h, m[hs[0].name := hs[0].value]);
    }
  }

  lemma {:induction false} ConnectionFound(hs: seq<Header>)
    ensures var m := HeaderMap(hs, map[]);
            ConnectionOf(hs) == if "Connection" in m then m["Connection"] else ""
  {
    if hs != [] {
      var n := |hs| - 1;
      ConnectionFound(hs[..n]);
      HeaderMapSnoc(hs[..n], hs[n], map[]);
      assert hs == hs[..n] + [hs[n]];
    }
  }

  /** A request asks the server to keep the connection if and only if its last "Connection" header says
      "Keep-Alive" or it is an HTTP/2.0 request whose header does not say "close".  An HTTP/1.1 request
      without the header, which by section 6.3 of RFC 7230 keeps the connection, has it closed. */
  lemma KeptAliveExactly(q: Sent)
    requires !q.v.Unknown?
    ensures !Closes(Seen(q)) <==> KeepsAlive(q)
  {
    ConnectionFound(q.hs);
  }
}
