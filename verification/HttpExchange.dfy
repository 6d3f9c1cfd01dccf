/** A request printed by format, sent in pieces, and put together again by the parser and its consumer. */
module HttpExchange {
  import opened HttpAutomaton
  import opened HttpHeaders
  import opened HttpRuns
  import opened HttpConsumer
  import opened HttpRequestLine
  import opened HttpHeaderLines
  import opened HttpFraming
  import opened HttpRoundTrip
  import opened HttpTransfer
  import opened HttpResponses
  import opened HttpResponseTrip
  import E = HttpExecute

  lemma FreshIsReachable()
    ensures Reachable(Fresh(Request)) && Reachable(Fresh(Response))
  {
  }

  /** What format prints, received in any pieces by a new connection, gives back the method, the URL, the headers in
      order and the body, and completes once. */
  method Exchange(request: HttpRequest, pieces: seq<string>) returns (received: E.Connection)
    requires WellFormed(request.verb, request.url, request.headers, request.body)
    requires var p := Prepared(request.verb, request.headers, request.body);
      |Head(request.verb, request.url, p)| <= MAX_HEADER_SIZE && E.Concat(pieces) == Head(request.verb, request.url, p) + request.body
    requires forall k | 0 <= k < |pieces| :: 0 < |pieces[k]| <= E.MAX_PIECE
    modifies request`headers
    ensures request.headers == Prepared(request.verb, old(request.headers), request.body)
    ensures fresh(received) && received.parser.verb == request.verb && received.ctx.url == request.url
    ensures received.ctx.headers == request.headers && received.ctx.body == request.body
    ensures !received.ctx.recv && received.ctx.completions == 1 && received.errno.None?
  {
    hide Run, Prepared, WellFormed, Head, Reachable, Fresh;
    RoundTrip(request.verb, request.url, request.headers, request.body);
    FreshIsReachable();
    var printed := request.Format();
    assert printed == E.Concat(pieces);
    received := new E.Connection(Request);
    var ok := received.AppendAll(pieces);
  }

  /** A chunked request, received in any pieces. */
  method ReceiveChunked(top: Top, ls: seq<Line>, chunks: seq<string>, pieces: seq<string>) returns (received: E.Connection)
    requires Sendable(top, ls) && NoUpgrade(Effects(NOTHING, ls))
    requires Effects(NOTHING, ls).flags.chunked && !Effects(NOTHING, ls).flags.contentLength
    requires forall k | 0 <= k < |chunks| :: 0 < |chunks[k]| <= MAX_CHUNK
    requires E.Concat(pieces) == HeadText(top, ls) + ChunkedText(chunks)
    requires forall k | 0 <= k < |pieces| :: 0 < |pieces[k]| <= E.MAX_PIECE
    ensures fresh(received) && received.errno.None? && Arrives(Done(Machine(received.parser, received.ctx)), top, ls, Joined(chunks))
  {
    hide Run, Sendable, HeadText, ChunkedText, Effects, Reachable, Fresh, Collected, HeadersOf;
    ChunkedRequest(top, ls, chunks);
    FreshIsReachable();
    received := new E.Connection(Request);
    var ok := received.AppendAll(pieces);
  }

  /** A printed response, received in any pieces. */
  method Respond(response: HttpResponse, phrase: string, pieces: seq<string>) returns (received: E.Connection)
    requires response.status <= 999 && OneLine(phrase) && Fit(response.headers, response.body, |response.body|)
    requires var head := ResponseText(response.status, phrase, Filled(response.headers, response.body));
      |head| <= MAX_HEADER_SIZE && E.Concat(pieces) == head + response.body
    requires forall k | 0 <= k < |pieces| :: 0 < |pieces[k]| <= E.MAX_PIECE
    modifies response`headers
    ensures response.headers == Filled(old(response.headers), response.body)
    ensures fresh(received) && received.parser.status == response.status && received.ctx.status == phrase
    ensures received.ctx.headers == response.headers && received.ctx.body == response.body
    ensures !received.ctx.recv && received.ctx.completions == 1 && received.errno.None?
  {
    hide Run, Filled, Fit, ResponseText, Reachable, Fresh, OneLine;
    ResponseReturns(response.status, phrase, response.headers, response.body, |response.body|);
    FreshIsReachable();
    var printed := response.Format(phrase);
    assert printed == E.Concat(pieces);
    received := new E.Connection(Response);
    var ok := received.AppendAll(pieces);
  }

  /** A response without a length, received in any pieces: the end of the connection completes it, once, with all that came. */
  method ReceiveOpen(top: Reply, ls: seq<Line>, body: string, pieces: seq<string>) returns (received: E.Connection)
    requires Answerable(top, ls) && NoUpgrade(Effects(NOTHING, ls))
    requires !Effects(NOTHING, ls).flags.chunked && !Effects(NOTHING, ls).flags.contentLength && Effects(NOTHING, ls).length == ULLONG_MAX
    requires !Bodyless(top.code) || Effects(NOTHING, ls).te
    requires E.Concat(pieces) == ResponseHead(top, ls) + body
    requires forall k | 0 <= k < |pieces| :: 0 < |pieces[k]| <= E.MAX_PIECE
    ensures fresh(received) && received.errno.None? && received.parser.status == top.code && received.ctx.status == top.reason
    ensures received.ctx.headers == Collected(HeadersOf(ls)) && received.ctx.body == body && received.ctx.completions == 1 && !received.ctx.recv
  {
    hide Run, Answerable, ResponseHead, Effects, Reachable, Fresh, Collected, HeadersOf, Bodyless;
    OpenResponse(top, ls, body);
    FreshIsReachable();
    received := new E.Connection(Response);
    var m := Machine(received.parser, received.ctx);
    var ok := received.AppendAll(pieces);
    RunReachable(m, E.Concat(pieces));
    var n := received.Execute("");
  }
}
