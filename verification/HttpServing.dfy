/** The server around the parser, http/HttpServerff.cpp: what it does with a connection's messages. */
module HttpServing {
  import opened Common
  import opened Buffer
  import opened Http
  import opened HttpTheorems

  /** What one message leads to: a 400 and the half-close, or a call of the application. */
  datatype Reaction = BadRequest | Serve(request: Request)

  /** `HttpServerff::onMessage`: parse what the buffer holds, reject a bad request, serve a complete one and
      reset. */
  function OnMessage(c: Context, s: string, time: int): (Context, string, seq<Reaction>)
    requires Parsable(c)
  {
    var p := Parse(c, s, time);
    if !p.ok then (p.context, p.rest, [BadRequest])
    else if p.context.state.GotAll? then (NewContext(), p.rest, [Serve(p.context.request)])
    else (p.context, p.rest, [])
  }

  /** A connection's messages, one after the other. */
  function Serving(c: Context, pending: string, chunks: seq<Chunk>): (r: (Context, string, seq<Reaction>))
    requires Parsable(c)
    ensures Parsable(r.0)
    decreases |chunks|
  {
    if chunks == [] then (c, pending, [])
    else
      var (d, rest, reactions) := OnMessage(c, pending + chunks[0].bytes, chunks[0].time);
      var (e, left, more) := Serving(d, rest, chunks[1..]);
      (e, left, reactions + more)
  }

  lemma ServingOne(c: Context, pending: string, last: Chunk)
    requires Parsable(c)
    ensures Serving(c, pending, [last]) == OnMessage(c, pending + last.bytes, last.time)
  {
    var chunks := [last];
    var (d, rest, reactions) := OnMessage(c, pending + last.bytes, last.time);
    assert chunks[1..] == [];
    assert Serving(d, rest, chunks[1..]) == (d, rest, []);
    assert reactions + [] == reactions;
  }

  /** A message that does not complete the request leaves the parser where feeding leaves it; the one that
      does is served with what has been parsed, and the context starts again. */
  lemma {:induction false} ServingIsFeeding(c: Context, pending: string, chunks: seq<Chunk>, last: Chunk)
    requires Parsable(c)
    requires !Final(Feed(c, pending, chunks))
    ensures var f := Feed(c, pending, chunks);
            && Serving(c, pending, chunks) == (f.context, f.rest, [])
            && (Parse(f.context, f.rest + last.bytes, last.time).context.state.GotAll? ==>
                 Serving(c, pending, chunks + [last]) ==
                   (NewContext(), Parse(f.context, f.rest + last.bytes, last.time).rest,
                    [Serve(Parse(f.context, f.rest + last.bytes, last.time).context.request)]))
    decreases |chunks|
  {
    if chunks == [] {
      assert chunks + [last] == [last];
      ServingOne(c, pending, last);
    } else {
      var p := Parse(c, pending + chunks[0].bytes, chunks[0].time);
      assert (chunks + [last])[1..] == chunks[1..] + [last];
      assert (chunks + [last])[0] == chunks[0];
      ServingIsFeeding(p.context, p.rest, chunks[1..], last);
      var none: seq<Reaction> := [];
      assert none + none == none;
      assert none + Serving(p.context, p.rest, chunks[1..] + [last]).2 ==
        Serving(p.context, p.rest, chunks[1..] + [last]).2;
    }
  }

  // ---------------------------------------------------------------- requests as they were sent

  /** A request as a client sends it. */
  datatype Sent = Sent(m: Method, path: string, query: string, v: Version, hs: seq<Header>)

  ghost predicate Good(q: Sent) {
    && !q.m.Invalid? && !q.v.Unknown? && GoodTarget(q.path, q.query)
    && forall h :: h in q.hs ==> GoodHeader(h)
  }

  function SentText(q: Sent): string {
    Render(q.m, q.path, q.query, q.v, q.hs)
  }

  /** What the application gets to see of it, receive time aside. */
  function Seen(q: Sent): Request {
    Request(q.m, Collapse(q.v), q.path, q.query, 0, HeaderMap(q.hs, map[]))
  }

  /** A reaction without the receive time of its request. */
  function TimelessReaction(r: Reaction): Reaction {
    if r.Serve? then Serve(r.request.(receiveTime := 0)) else r
  }

  function TimelessAll(rs: seq<Reaction>): seq<Reaction> {
    seq(|rs|, i requires 0 <= i < |rs| => TimelessReaction(rs[i]))
  }

  /** Messages without bytes change nothing. */
  lemma {:induction false} NothingServed(chunks: seq<Chunk>)
    requires Concat(chunks) == ""
    ensures Serving(NewContext(), "", chunks) == (NewContext(), "", [])
    decreases |chunks|
  {
    if chunks != [] {
      assert chunks[0].bytes == "" && Concat(chunks[1..]) == "";
      assert "" + chunks[0].bytes == "";
      NothingServed(chunks[1..]);
      var none: seq<Reaction> := [];
      assert none + none == none;
    }
  }

  /** If parsing everything at once completes a request and leaves nothing, then so does serving it in pieces,
      once. */
  lemma {:induction false} PiecesServedOnce(c: Context, pending: string, chunks: seq<Chunk>, q: Request)
    requires Parsable(c) && FindCrlf(pending).None?
    requires TimelessOutcome(Parse(c, pending + Concat(chunks), 0)) == Outcome(true, Context(GotAll, q), "")
    ensures var (d, rest, reactions) := Serving(c, pending, chunks);
            d == NewContext() && rest == "" && TimelessAll(reactions) == [Serve(q)]
    decreases |chunks|
  {
    hide Parse, Serving, OnMessage, FindCrlf;
    if chunks == [] {
      assert pending + Concat(chunks) == pending;
      NoLineYet(c, pending);
    } else {
      var t := chunks[0].time;
      var s := pending + chunks[0].bytes;
      var later := Concat(chunks[1..]);
      assert pending + Concat(chunks) == s + later;
      ParseSplit(c, s, later, 0);
      ParseTimeless(c, c, s, 0, t);
      AddReactions(c, pending, chunks);
      if Final(Parse(c, s, 0)) {
        CompletesHere(c, s, later, t, q);
        NothingServed(chunks[1..]);
      } else {
        PausesHere(c, s, later, t, q);
        PiecesServedOnce(Parse(c, s, t).context, Parse(c, s, t).rest, chunks[1..], q);
      }
    }
  }

  lemma NoLineYet(c: Context, pending: string)
    requires Parsable(c) && FindCrlf(pending).None?
    ensures Parse(c, pending, 0) == Outcome(true, c, pending)
  {
  }

  lemma AddReactions(c: Context, pending: string, chunks: seq<Chunk>)
    requires Parsable(c) && chunks != []
    ensures Parsable(OnMessage(c, pending + chunks[0].bytes, chunks[0].time).0)
    ensures var (d, rest, reactions) := OnMessage(c, pending + chunks[0].bytes, chunks[0].time);
            var (e, left, more) := Serving(d, rest, chunks[1..]);
            && Serving(c, pending, chunks) == (e, left, reactions + more)
            && (reactions == [] ==> reactions + more == more) && (more == [] ==> reactions + more == reactions)
  {
    StaysParsable(c, pending + chunks[0].bytes, chunks[0].time);
    hide OnMessage;
  }

  lemma StaysParsable(c: Context, s: string, time: int)
    requires Parsable(c)
    ensures Parsable(OnMessage(c, s, time).0)
  {
    hide Parse;
  }

  lemma CompletesHere(c: Context, s: string, later: string, time: int, q: Request)
    requires Parsable(c) && Final(Parse(c, s, 0))
    requires TimelessOutcome(Parse(c, s, time)) == TimelessOutcome(Parse(c, s, 0))
    requires Parse(c, s + later, 0) == Parse(c, s, 0).(rest := Parse(c, s, 0).rest + later)
    requires TimelessOutcome(Parse(c, s + later, 0)) == Outcome(true, Context(GotAll, q), "")
    ensures later == ""
    ensures OnMessage(c, s, time).0 == NewContext() && OnMessage(c, s, time).1 == ""
    ensures TimelessAll(OnMessage(c, s, time).2) == [Serve(q)]
  {
    hide Parse;
  }

  lemma PausesHere(c: Context, s: string, later: string, time: int, q: Request)
    requires Parsable(c) && !Final(Parse(c, s, 0))
    requires TimelessOutcome(Parse(c, s, time)) == TimelessOutcome(Parse(c, s, 0))
    requires Parse(c, s + later, 0) == Parse(Parse(c, s, 0).context, Parse(c, s, 0).rest + later, 0)
    requires TimelessOutcome(Parse(c, s + later, 0)) == Outcome(true, Context(GotAll, q), "")
    ensures var p := Parse(c, s, time);
            && OnMessage(c, s, time) == (p.context, p.rest, [])
            && Parsable(p.context) && FindCrlf(p.rest).None?
            && TimelessOutcome(Parse(p.context, p.rest + later, 0)) == Outcome(true, Context(GotAll, q), "")
  {
    var p, z := Parse(c, s, time), Parse(c, s, 0);
    LeftoverHasNoLine(c, s, time);
    ParseTimeless(p.context, z.context, z.rest + later, 0, 0);
    hide Parse;
  }

  /** A request cut anywhere is served exactly once, with the fields that were sent, and the parser is ready
      for the next. */
  lemma SentRequestServedOnce(q: Sent, chunks: seq<Chunk>)
    requires Good(q) && Concat(chunks) == SentText(q)
    ensures var (d, rest, reactions) := Serving(NewContext(), "", chunks);
            d == NewContext() && rest == "" && TimelessAll(reactions) == [Serve(Seen(q))]
  {
    RoundTrip(q.m, q.path, q.query, q.v, q.hs, "", 0);
    assert SentText(q) + "" == SentText(q) && "" + Concat(chunks) == SentText(q);
    hide Parse, Serving, Render;
    PiecesServedOnce(NewContext(), "", chunks, Seen(q));
  }

  lemma {:induction false} ServingAppend(c: Context, pending: string, xs: seq<Chunk>, ys: seq<Chunk>)
    requires Parsable(c)
    ensures var (d, rest, reactions) := Serving(c, pending, xs);
            var (e, left, more) := Serving(d, rest, ys);
            Serving(c, pending, xs + ys) == (e, left, reactions + more)
    decreases |xs|
  {
    hide OnMessage, Serving;
    if xs == [] {
      NoMessages(c, pending);
      assert xs + ys == ys;
      assert [] + Serving(c, pending, ys).2 == Serving(c, pending, ys).2;
    } else {
      AddReactions(c, pending, xs);
      AddReactions(c, pending, xs + ys);
      assert (xs + ys)[0] == xs[0] && (xs + ys)[1..] == xs[1..] + ys;
      var m := OnMessage(c, pending + xs[0].bytes, xs[0].time);
      ServingAppend(m.0, m.1, xs[1..], ys);
      var n := Serving(m.0, m.1, xs[1..]);
      ReactionsRegroup(m.2, n.2, Serving(n.0, n.1, ys).2);
    }
  }

  lemma NoMessages(c: Context, pending: string)
    requires Parsable(c)
    ensures Serving(c, pending, []) == (c, pending, [])
  {
  }

  lemma ReactionsRegroup(a: seq<Reaction>, b: seq<Reaction>, c: seq<Reaction>)
    ensures a + b + c == a + (b + c)
  {
  }

  /** The messages of one request after the other. */
  function InTurn(cuts: seq<seq<Chunk>>): seq<Chunk> {
    if cuts == [] then [] else cuts[0] + InTurn(cuts[1..])
  }

  function SeenAll(qs: seq<Sent>): seq<Reaction> {
    seq(|qs|, i requires 0 <= i < |qs| => Serve(Seen(qs[i])))
  }

  /** Requests that arrive one after the other, each cut anywhere, are each served exactly once, in order,
      with the fields that were sent. */
  lemma {:induction false} EachRequestServedOnce(qs: seq<Sent>, cuts: seq<seq<Chunk>>)
    requires |cuts| == |qs|
    requires forall i :: 0 <= i < |qs| ==> Good(qs[i]) && Concat(cuts[i]) == SentText(qs[i])
    ensures var (d, rest, reactions) := Serving(NewContext(), "", InTurn(cuts));
            d == NewContext() && rest == "" && TimelessAll(reactions) == SeenAll(qs)
    decreases |qs|
  {
    if qs != [] {
      SentRequestServedOnce(qs[0], cuts[0]);
      assert forall i :: 0 <= i < |qs| - 1 ==> qs[1..][i] == qs[i + 1] && cuts[1..][i] == cuts[i + 1];
      EachRequestServedOnce(qs[1..], cuts[1..]);
      ServingAppend(NewContext(), "", cuts[0], InTurn(cuts[1..]));
      var (_, _, first) := Serving(NewContext(), "", cuts[0]);
      var (_, _, later) := Serving(NewContext(), "", InTurn(cuts[1..]));
      ReactionsJoin(first, later, qs);
    }
  }

  lemma ReactionsJoin(first: seq<Reaction>, later: seq<Reaction>, qs: seq<Sent>)
    requires qs != [] && TimelessAll(first) == [Serve(Seen(qs[0]))] && TimelessAll(later) == SeenAll(qs[1..])
    ensures TimelessAll(first + later) == SeenAll(qs)
  {
    assert TimelessAll(first + later) == TimelessAll(first) + TimelessAll(later);
    assert SeenAll(qs) == [Serve(Seen(qs[0]))] + SeenAll(qs[1..]);
  }
}
