/** Header lines behind a chunked body, and what the consumer makes of them. */
module HttpTrailers {
  import opened HttpAutomaton
  import opened HttpHeaders
  import opened HttpConsumer
  import opened HttpFraming
  import opened HttpRequestLine
  import opened HttpHeaderLines
  import opened HttpRoundTrip
  import opened HttpTransfer

  function ChunksText(chunks: seq<string>): string { if chunks == [] then "" else ChunkText(chunks[0]) + ChunksText(chunks[1..]) }

  lemma {:induction false} ChunksRun(m: Machine, chunks: seq<string>)
    requires m.parser.st.ChunkSizeStart? && m.parser.nread == 0
    requires forall k | 0 <= k < |chunks| :: 0 < |chunks[k]| <= MAX_CHUNK
    ensures Run(m, ChunksText(chunks)) ==
      Done(Machine(if chunks == [] then m.parser else m.parser.(contentLength := 0), m.ctx.(body := m.ctx.body + Joined(chunks))))
    decreases |chunks|
  {
    hide Run, One, ChunkText;
    if chunks == [] {
      Empty(m);
      NoBody(m.ctx);
    } else {
      ChunkRun(m, chunks[0]);
      var a := Machine(m.parser.(contentLength := 0), m.ctx.(body := m.ctx.body + chunks[0]));
      ChunksRun(a, chunks[1..]);
      RunJoin(m, ChunkText(chunks[0]), ChunksText(chunks[1..]));
      assert (m.ctx.body + chunks[0]) + Joined(chunks[1..]) == m.ctx.body + Joined(chunks);
    }
  }

  /** The last chunk, of size nought, and the line end behind it. */
  lemma LastSize(m: Machine)
    requires m.parser.st.ChunkSizeStart? && m.parser.nread == 0
    ensures Run(m, "0" + CRLF) ==
      Done(Machine(m.parser.(nread := 0, contentLength := 0, flags := m.parser.flags.(trailing := true), st := FieldStart), m.ctx))
  {
    hide One;
    assert Hex(0) == "0";
    ChunkSizeRead(m, 0);
    var a := Run(m, "0").m;
    SizeLine(a);
    RunJoin(m, "0", CRLF);
  }

  /** The empty line that ends the message. */
  lemma TrailersEnd(m: Machine)
    requires m.parser.st.FieldStart? && m.parser.flags.trailing && m.parser.nread + 2 <= MAX_HEADER_SIZE && !m.parser.upgrade
    ensures Run(m, CRLF) == Completed(m.parser.(nread := m.parser.nread + 2, st := MessageDone), m.ctx, "")
  {
    hide One, Run, NewMessage;
    LastCr(m);
    Pair(m, CR, LF);
    var p := m.parser.(nread := m.parser.nread + 1, st := HeadersAlmostDone);
    LastLf(Machine(p, m.ctx));
    assert p.(nread := p.nread + 1, st := MessageDone) == m.parser.(nread := m.parser.nread + 2, st := MessageDone);
  }

  lemma CollectedGrows(hs: seq<Header>, h: Header)
    ensures Collected(hs + [h]) == Insert(Collected(hs), h.0, h.1)
  {
    assert (hs + [h])[..|hs|] == hs;
    hide Insert;
  }

  /** The first trailer makes the consumer insert the last header again; the last trailer it never inserts. */
  lemma {:induction false} TrailersCollected(c: Ctx, hs: seq<Header>, ts: seq<Header>)
    requires Ready(c) && c.field != "" && c.headers == Collected(hs) && ts != [] && forall t | t in ts :: t.0 != ""
    ensures var a := AfterHeaders(c, ts);
      && a.url == c.url && a.status == c.status && a.body == c.body && a.recv == c.recv && a.completions == c.completions
      && Ready(a) && (a.field, a.value) == ts[|ts| - 1] && a.headers == Collected(hs + [(c.field, c.value)] + ts[..|ts| - 1])
  {
    hide Insert, Collected;
    var init, t := ts[..|ts| - 1], ts[|ts| - 1];
    assert t in ts;
    if init == [] {
      assert AfterHeaders(c, init) == c;
      HeaderAfter(c, t, hs);
      assert hs + [(c.field, c.value)] + init == hs + [(c.field, c.value)];
    } else {
      assert forall x | x in init :: x in ts;
      TrailersCollected(c, hs, init);
      var front, last := init[..|init| - 1], init[|init| - 1];
      assert init == front + [last];
      HeaderAfter(AfterHeaders(c, init), t, hs + [(c.field, c.value)] + front);
      assert hs + [(c.field, c.value)] + init == hs + [(c.field, c.value)] + front + [last];
    }
  }

  /** A new name makes the consumer insert the pair it holds. */
  lemma HeaderAfter(c: Ctx, t: Header, hs: seq<Header>)
    requires Ready(c) && c.field != "" && t.0 != "" && c.headers == Collected(hs)
    ensures var a := AfterHeader(c, t.0, t.1);
      && a.url == c.url && a.status == c.status && a.body == c.body && a.recv == c.recv && a.completions == c.completions
      && Ready(a) && (a.field, a.value) == t && a.headers == Collected(hs + [(c.field, c.value)])
  {
    hide Insert, Collected;
    CollectedGrows(hs, (c.field, c.value));
    assert "" + t.0 == t.0;
  }

  /** A chunked request with trailers. */
  function TrailedText(top: Top, ls: seq<Line>, chunks: seq<string>, ts: seq<Line>): string
    requires TopOk(top) && LinesOk(ls) && LinesOk(ts)
  {
    HeadText(top, ls) + ChunksText(chunks) + ("0" + CRLF) + HeadersText(HeadersOf(ts)) + CRLF
  }

  /** What the consumer ends with, for headers `hs` and trailers `ts`. */
  function Misread(hs: seq<Header>, ts: seq<Header>): seq<Header>
    requires hs != [] && ts != []
  {
    Collected(hs + [hs[|hs| - 1]] + ts[..|ts| - 1])
  }

  /** From the end of the head: the chunks, then the lines behind them. */
  lemma TrailersRun(m: Machine, chunks: seq<string>, hs: seq<Header>, ts: seq<Line>)
    requires m.parser.st.ChunkSizeStart? && m.parser.nread == 0 && !m.parser.upgrade && !m.parser.flags.contentLength
    requires forall k | 0 <= k < |chunks| :: 0 < |chunks[k]| <= MAX_CHUNK
    requires LinesOk(ts) && OneLength(ts) && ts != [] && |HeadersText(HeadersOf(ts))| + 2 <= MAX_HEADER_SIZE
    requires Ready(m.ctx) && m.ctx.field != "" && m.ctx.headers == Collected(hs) && m.ctx.body == "" && m.ctx.completions == 0
    ensures var r := Run(m, ChunksText(chunks) + ("0" + CRLF) + HeadersText(HeadersOf(ts)) + CRLF);
      r.Done? && r.m.ctx.headers == Collected(hs + [(m.ctx.field, m.ctx.value)] + HeadersOf(ts)[..|ts| - 1]) && r.m.ctx.body == Joined(chunks)
      && r.m.ctx.url == m.ctx.url && !r.m.ctx.recv && r.m.ctx.completions == 1 && r.m.parser.verb == m.parser.verb
  {
    hide Run, One, Collected, HeadersText, HeadersOf, ChunksText, Insert, Reads, FramingOf, Effects, NewMessage;
    ChunksRun(m, chunks);
    var a := Run(m, ChunksText(chunks)).m;
    assert "" + Joined(chunks) == Joined(chunks);
    LastSize(a);
    RunJoin(m, ChunksText(chunks), "0" + CRLF);
    var b := Run(a, "0" + CRLF).m;
    var e := BlockRun(b, ts);
    var s := Settle(e);
    FirstsNonempty(ts);
    TrailersCollected(b.ctx, hs, HeadersOf(ts));
    ReadsRun(b, HeadersText(HeadersOf(ts)), e);
    RunJoin(m, ChunksText(chunks) + ("0" + CRLF), HeadersText(HeadersOf(ts)));
    RunJoin(m, ChunksText(chunks) + ("0" + CRLF) + HeadersText(HeadersOf(ts)), CRLF);
    SettledRun(e, CRLF);
    BlockKeepsTrailing(b, e, ts);
    TrailersEnd(s);
    assert s.ctx.body + "" == s.ctx.body;
  }

  lemma BlockKeepsTrailing(b: Machine, e: Machine, ts: seq<Line>)
    requires LinesOk(ts) && BlockRuns(b, e, ts)
    ensures var p := Settle(e).parser; 
      p.flags.trailing == b.parser.flags.trailing && p.upgrade == b.parser.upgrade && p.verb == b.parser.verb && NewMessage(p.(nread := p.nread + 2, st := MessageDone)).verb == p.verb
  {
    EffectsKeepTrailing(FramingOf(b.parser), ts);
    hide Effects, HeadersText, HeadersOf;
  }

  /** Trailers are taken in, the body is right, and the message completes once; but the last header is there twice and the last
      trailer is missing. */
  lemma TrailedRequest(top: Top, ls: seq<Line>, chunks: seq<string>, ts: seq<Line>)
    requires Sendable(top, ls) && NoUpgrade(Effects(NOTHING, ls))
    requires Effects(NOTHING, ls).flags.chunked && !Effects(NOTHING, ls).flags.contentLength
    requires forall k | 0 <= k < |chunks| :: 0 < |chunks[k]| <= MAX_CHUNK
    requires LinesOk(ts) && OneLength(ts) && ts != [] && |HeadersText(HeadersOf(ts))| + 2 <= MAX_HEADER_SIZE
    ensures var r := Run(Machine(Fresh(Request), NEW_CTX), TrailedText(top, ls, chunks, ts));
      r.Done? && r.m.parser.verb == top.verb && r.m.ctx.url == top.url && r.m.ctx.body == Joined(chunks)
      && r.m.ctx.headers == Misread(HeadersOf(ls), HeadersOf(ts)) && !r.m.ctx.recv && r.m.ctx.completions == 1
  {
    hide One, Run, Sendable, HeadText, Effects, Joined, Collected, HeadersOf, HeadersText, ChunksText;
    assert LinesOk(ls) && ls != [] && TopOk(top) && !top.verb.CONNECT? by { SendableLines(top, ls); }
    var p, c := HeadRuns(top, ls);
    StaysIf(p, c, top, ls);
    FirstsNonempty(ls);
    var hs := HeadersOf(ls);
    assert hs[|hs| - 1] in hs;
    var b := Machine(p.(nread := 0, upgrade := false, st := ChunkSizeStart), OnHeadersComplete(c));
    TrailersRun(b, chunks, hs, ts);
    var rest := ChunksText(chunks) + ("0" + CRLF) + HeadersText(HeadersOf(ts)) + CRLF;
    RunJoin(Machine(Fresh(Request), NEW_CTX), HeadText(top, ls), rest);
    assert TrailedText(top, ls, chunks, ts) == HeadText(top, ls) + rest;
  }

  lemma OneMore(m: multiset<Header>, h: Header, t: Header)
    ensures m + multiset{h} == m + multiset{t} <==> h == t
  {
    if h != t { assert (m + multiset{h})[t] == m[t] && (m + multiset{t})[t] == m[t] + 1; }
  }

  lemma Rearranged(hs: seq<Header>, h: Header, front: seq<Header>)
    ensures multiset(hs + [h] + front) == multiset(hs) + multiset(front) + multiset{h}
    ensures multiset(hs) + multiset(front + [h]) == multiset(hs) + multiset(front) + multiset{h}
  {
    assert multiset(hs + [h] + front) == multiset(hs) + multiset([h]) + multiset(front);
    assert multiset(front + [h]) == multiset(front) + multiset{h};
  }

  /** The consumer ends with the headers and the trailers, as sent, exactly if the last trailer is the last header again. */
  lemma RightIfRepeated(hs: seq<Header>, ts: seq<Header>)
    requires hs != [] && ts != []
    ensures multiset(Misread(hs, ts)) == multiset(hs) + multiset(ts) <==> hs[|hs| - 1] == ts[|ts| - 1]
  {
    hide Collected;
    var h, front, t := hs[|hs| - 1], ts[..|ts| - 1], ts[|ts| - 1];
    CollectedAll(hs + [h] + front);
    assert ts == front + [t];
    Rearranged(hs, h, front);
    Rearranged(hs, t, front);
    OneMore(multiset(hs) + multiset(front), h, t);
  }
}
