/** Responses: the status line, where a body ends, and what YS_HttpResponse::format prints. */
module HttpResponses {
  import opened HttpAutomaton
  import opened HttpHeaders
  import opened HttpConsumer
  import opened HttpMarks
  import opened HttpBodies
  import opened HttpFraming
  import opened HttpRequestLine
  import opened HttpHeaderLines
  import opened HttpRoundTrip
  import opened HttpTransfer

  // ------------------------------------------------------------------ the status code

  lemma FirstCodeDigit(m: Machine, d: nat)
    requires m.parser.st.ResFirstStatusCode? && d < 10 && m.parser.nread < MAX_HEADER_SIZE
    ensures One(m, DecimalDigit(d)) == Done(Machine(m.parser.(nread := m.parser.nread + 1, status := d, st := ResStatusCode), m.ctx))
  {
    DigitValue(d);
    hide DecimalDigit;
  }

  lemma NextCodeDigit(m: Machine, d: nat)
    requires m.parser.st.ResStatusCode? && d < 10 && m.parser.nread < MAX_HEADER_SIZE
    ensures One(m, DecimalDigit(d)) ==
      if m.parser.status * 10 + d > 999 then Failed
      else Done(Machine(m.parser.(nread := m.parser.nread + 1, status := m.parser.status * 10 + d), m.ctx))
  {
    DigitValue(d);
    hide DecimalDigit;
  }

  /** A status code is read as the number it is if that is at most 999, and refused if it is greater. */
  lemma {:induction false} StatusCodeRead(m: Machine, code: nat)
    requires m.parser.st.ResFirstStatusCode? && m.parser.nread + |Decimal(code)| <= MAX_HEADER_SIZE
    ensures code > 999 ==> Run(m, Decimal(code)).Failed?
    ensures code <= 999 ==> Reads(m, Decimal(code), Machine(m.parser.(nread := m.parser.nread + |Decimal(code)|, status := code, st := ResStatusCode), m.ctx))
  {
    hide One, Run, DecimalDigit;
    var init := if code < 10 then "" else Decimal(code / 10);
    RunOne(m, init, DecimalDigit(code % 10));
    if code < 10 {
      Empty(m);
      FirstCodeDigit(m, code);
      assert Decimal(code) == [DecimalDigit(code)];
    } else {
      StatusCodeRead(m, code / 10);
      if code / 10 <= 999 { NextCodeDigit(Run(m, init).m, code % 10); } else { RunFails(m, init, DecimalDigit(code % 10)); }
    }
  }

  // ------------------------------------------------------------------ the status line

  predicate OneLine(reason: string) { forall i | 0 <= i < |reason| :: reason[i] != CR && reason[i] != LF }

  /** The parts of a status line; a version's numbers have one digit each. */
  datatype Reply = Reply(code: nat, reason: string, major: nat, minor: nat)

  predicate ReplyOk(t: Reply) { t.code <= 999 && OneLine(t.reason) && t.major < 10 && t.minor < 10 }

  function ReplyText(t: Reply): string
    requires ReplyOk(t)
  {
    "HTTP/" + ReplyVersion(t.major, t.minor) + Decimal(t.code) + " " + t.reason + CRLF
  }

  lemma StartByte(m: Machine)
    requires m.parser.st.StartRes? && m.parser.nread < MAX_HEADER_SIZE
    ensures One(m, 'H') == Done(Machine(Clean(m.parser).(nread := m.parser.nread + 1, st := ResH), m.ctx))
  {
  }

  lemma ResponseFixed()
    ensures Fixed(ResH, 'T', ResHT) && Fixed(ResHT, 'T', ResHTT) && Fixed(ResHTT, 'P', ResHTTP) && Fixed(ResHTTP, '/', ResMajor)
  {
  }

  lemma ReadName(m: Machine)
    requires m.parser.st.StartRes? && m.parser.nread + 5 <= MAX_HEADER_SIZE
    ensures Reads(m, "HTTP/", Machine(Clean(m.parser).(nread := m.parser.nread + 5, st := ResMajor), m.ctx))
  {
    hide One, Run, Reads, On, Expected, Clean;
    ResponseFixed();
    StartByte(m);
    var a := Machine(Clean(m.parser).(nread := m.parser.nread + 1, st := ResH), m.ctx);
    ReadOne(m, 'H', a);
    assert "T" + ['T'] == "TT" && "TT" + ['P'] == "TTP" && "TTP" + ['/'] == "TTP/" && "H" + "TTP/" == "HTTP/" && "" + ['T'] == "T";
    Nothing(a);
    ReadFixed(a, "", 0, ResH, 'T', ResHT);
    ReadFixed(a, "T", 1, ResHT, 'T', ResHTT);
    ReadFixed(a, "TT", 2, ResHTT, 'P', ResHTTP);
    ReadFixed(a, "TTP", 3, ResHTTP, '/', ResMajor);
    ReadOn(m, "H", a, "TTP/", On(a, 4, ResMajor));
    OnIs(a, 4, ResMajor);
  }

  lemma Nothing(m: Machine)
    ensures Reads(m, "", On(m, 0, m.parser.st))
  {
    Empty(m);
    assert m.parser.(nread := m.parser.nread + 0, st := m.parser.st) == m.parser;
  }

  lemma OnIs(m: Machine, n: nat, st: State)
    ensures On(m, n, st) == Machine(m.parser.(nread := m.parser.nread + n, st := st), m.ctx)
  {
  }

  lemma ResponseDigit(m: Machine, d: nat)
    requires (m.parser.st.ResMajor? || m.parser.st.ResMinor?) && m.parser.nread < MAX_HEADER_SIZE && d < 10
    ensures One(m, DecimalDigit(d)) == Done(Machine(
      if m.parser.st.ResMajor? then m.parser.(nread := m.parser.nread + 1, major := d, st := ResDot)
      else m.parser.(nread := m.parser.nread + 1, minor := d, st := ResEnd), m.ctx))
  {
    DecimalDigitIs(d);
    hide DecimalDigit;
  }

  function ReplyVersion(major: nat, minor: nat): string
    requires major < 10 && minor < 10
  {
    [DecimalDigit(major)] + "." + [DecimalDigit(minor)] + " "
  }

  lemma ReadReplyVersion(m: Machine, major: nat, minor: nat)
    requires m.parser.st.ResMajor? && m.parser.nread + 4 <= MAX_HEADER_SIZE && major < 10 && minor < 10
    ensures Reads(m, ReplyVersion(major, minor),
      Machine(m.parser.(nread := m.parser.nread + 4, major := major, minor := minor, st := ResFirstStatusCode), m.ctx))
  {
    hide One, Run, Reads, DecimalDigit;
    var n, x, y := m.parser.nread, DecimalDigit(major), DecimalDigit(minor);
    var a := Machine(m.parser.(nread := n + 1, major := major, st := ResDot), m.ctx);
    var c := Machine(m.parser.(nread := n + 3, major := major, minor := minor, st := ResEnd), m.ctx);
    ResponseDigit(m, major);
    ReadOne(m, x, a);
    ExpectedByte(a, '.');
    ReadChar(m, [x], a, '.', [x] + ".", On(a, 1, ResMinor));
    ResponseDigit(On(a, 1, ResMinor), minor);
    ReadChar(m, [x] + ".", On(a, 1, ResMinor), y, [x] + "." + [y], c);
    ExpectedByte(c, ' ');
    assert [x] + "." + [y] + [' '] == ReplyVersion(major, minor);
    ReadChar(m, [x] + "." + [y], c, ' ', ReplyVersion(major, minor), On(c, 1, ResFirstStatusCode));
  }

  lemma CodeEnds(m: Machine)
    requires m.parser.st.ResStatusCode? && m.parser.nread < MAX_HEADER_SIZE
    ensures One(m, ' ') == Done(On(m, 1, ResStatusStart))
  {
  }

  lemma ReasonFirst(m: Machine, b: char)
    requires m.parser.st.ResStatusStart? && m.parser.nread < MAX_HEADER_SIZE && b != CR && b != LF
    ensures One(m, b) == Done(Machine(m.parser.(nread := m.parser.nread + 1, st := ResStatus, index := 0), m.ctx.(status := m.ctx.status + [b])))
  {
    assert [Mark(Status)][1..] == [];
  }

  lemma ReasonNext(m: Machine, b: char)
    requires m.parser.st.ResStatus? && m.parser.nread < MAX_HEADER_SIZE && b != CR && b != LF
    ensures One(m, b) == Done(Machine(m.parser.(nread := m.parser.nread + 1), m.ctx.(status := m.ctx.status + [b])))
  {
  }

  lemma ReasonCr(m: Machine)
    requires (m.parser.st.ResStatus? || m.parser.st.ResStatusStart?) && m.parser.nread < MAX_HEADER_SIZE
    ensures One(m, CR) == Done(Machine(
      m.parser.(nread := m.parser.nread + 1, st := ResLineAlmostDone, index := if m.parser.st.ResStatus? then m.parser.index else 0), m.ctx))
  {
    assert [Mark(Status)] + [Flush(Status)] == [Mark(Status), Flush(Status)];
    assert [Mark(Status), Flush(Status)][1..] == [Flush(Status)] && [Flush(Status)][1..] == [];
    assert m.ctx.status + "" == m.ctx.status;
  }

  lemma {:induction false} ReasonRun(m: Machine, reason: string)
    requires m.parser.st.ResStatusStart? && OneLine(reason) && reason != "" && m.parser.nread + |reason| <= MAX_HEADER_SIZE
    ensures Reads(m, reason, Machine(m.parser.(nread := m.parser.nread + |reason|, st := ResStatus, index := 0), m.ctx.(status := m.ctx.status + reason)))
  {
    hide One, Run, Reads;
    var init, b := reason[..|reason| - 1], reason[|reason| - 1];
    assert reason == init + [b];
    if init == "" {
      ReasonFirst(m, b);
      ReadOne(m, b, One(m, b).m);
    } else {
      ReasonRun(m, init);
      var a := Machine(m.parser.(nread := m.parser.nread + |init|, st := ResStatus, index := 0), m.ctx.(status := m.ctx.status + init));
      ReasonNext(a, b);
      assert (m.ctx.status + init) + [b] == m.ctx.status + reason;
      ReadChar(m, init, a, b, reason, One(a, b).m);
    }
  }

  /** A status line is read to its version, its code and its reason. */
  lemma ReplyRun(m: Machine, t: Reply)
    requires m.parser.st.StartRes? && ReplyOk(t) && m.parser.nread + |ReplyText(t)| <= MAX_HEADER_SIZE
    ensures Reads(m, ReplyText(t), Machine(
      Clean(m.parser).(major := t.major, minor := t.minor, status := t.code, index := 0, st := FieldStart, nread := m.parser.nread + |ReplyText(t)|),
      m.ctx.(status := m.ctx.status + t.reason)))
  {
    hide One, Run, Reads, Clean, Decimal, Expected, DecimalDigit;
    var (code, reason) := (t.code, t.reason);
    var digits, version := Decimal(code), ReplyVersion(t.major, t.minor);
    ReadName(m);
    var a := Machine(Clean(m.parser).(nread := m.parser.nread + 5, st := ResMajor), m.ctx);
    ReadReplyVersion(a, t.major, t.minor);
    var b := Machine(a.parser.(nread := a.parser.nread + 4, major := t.major, minor := t.minor, st := ResFirstStatusCode), m.ctx);
    ReadOn(m, "HTTP/", a, version, b);
    StatusCodeRead(b, code);
    var c := Machine(b.parser.(nread := b.parser.nread + |digits|, status := code, st := ResStatusCode), m.ctx);
    ReadOn(m, "HTTP/" + version, b, digits, c);
    CodeEnds(c);
    var d := On(c, 1, ResStatusStart);
    ReadOne(c, ' ', d);
    ReadOn(m, "HTTP/" + version + digits, c, " ", d);
    var e := d;
    if reason == "" {
      Nothing(d);
      assert "HTTP/" + version + digits + " " == "HTTP/" + version + digits + " " + reason;
      assert m.ctx.status + reason == m.ctx.status;
    } else {
      ReasonRun(d, reason);
      e := Machine(d.parser.(nread := d.parser.nread + |reason|, st := ResStatus, index := 0), m.ctx.(status := m.ctx.status + reason));
      ReadOn(m, "HTTP/" + version + digits + " ", d, reason, e);
    }
    ReasonCr(e);
    var f := Machine(e.parser.(nread := e.parser.nread + 1, st := ResLineAlmostDone, index := 0), e.ctx);
    var text := "HTTP/" + version + digits + " " + reason;
    ReadChar(m, text, e, CR, text + [CR], f);
    LineLf(f);
    assert text + [CR] + [LF] == text + CRLF;
    ReadChar(m, text + [CR], f, LF, text + CRLF, On(f, 1, FieldStart));
  }

  lemma LineLf(m: Machine)
    requires m.parser.st.ResLineAlmostDone? && m.parser.nread < MAX_HEADER_SIZE
    ensures One(m, LF) == Done(On(m, 1, FieldStart))
  {
    ExpectedByte(m, LF);
  }

  // ------------------------------------------------------------------ the end of the headers

  /** Statuses whose responses have no body: section 3.3.3 of RFC 7230, without the answers to HEAD, which the parser is not told of. */
  predicate Bodyless(code: nat) { 100 <= code <= 199 || code == 204 || code == 304 }

  /** A response that stays with HTTP. */
  predicate ResponseStays(p: Parser) {
    p.kind.Response? && !p.lenient && !p.verb.CONNECT? && !p.flags.trailing && !(p.flags.upgrade && p.flags.connUpgrade)
  }

  lemma InformationalCodes(code: nat)
    ensures code / 100 == 1 <==> 100 <= code <= 199
  {
  }

  /** What the empty line decides about a response. */
  lemma ResponseDecides(p: Parser)
    requires p.st.HeadersAlmostDone? && ResponseStays(p)
    ensures var q := p.(nread := 0, upgrade := false);
      Switch(p, LF) ==
        if p.te && p.flags.contentLength then Fail(UnexpectedContentLength)
        else if p.flags.chunked then Go(q.(st := ChunkSizeStart), [HeadersComplete])
        else if p.te then Go(q.(st := BodyIdentityEof), [HeadersComplete])
        else if p.contentLength == 0 || (p.contentLength == ULLONG_MAX && Bodyless(p.status)) then Go(NewMessage(q), [HeadersComplete, MessageComplete])
        else if p.contentLength != ULLONG_MAX then Go(q.(st := BodyIdentity), [HeadersComplete])
        else Go(q.(st := BodyIdentityEof), [HeadersComplete])
  {
    hide NewMessage;
    InformationalCodes(p.status);
    assert [HeadersComplete] + [MessageComplete] == [HeadersComplete, MessageComplete] && [HeadersComplete] + [] == [HeadersComplete];
  }

  /** After the empty line. */
  function ResponseEnded(m: Machine): Result
    requires ResponseStays(m.parser)
  {
    var p, q, c := m.parser, m.parser.(nread := 0, upgrade := false), OnHeadersComplete(m.ctx);
    if p.te && p.flags.contentLength then Failed
    else if p.flags.chunked then Done(Machine(q.(st := ChunkSizeStart), c))
    else if p.te then Done(Machine(q.(st := BodyIdentityEof), c))
    else if p.contentLength == 0 || (p.contentLength == ULLONG_MAX && Bodyless(p.status)) then Done(Machine(NewMessage(q), OnMessageComplete(c)))
    else if p.contentLength != ULLONG_MAX then Done(Machine(q.(st := BodyIdentity), c))
    else Done(Machine(q.(st := BodyIdentityEof), c))
  }

  lemma ResponseByLf(m: Machine)
    requires m.parser.st.HeadersAlmostDone? && m.parser.nread < MAX_HEADER_SIZE && ResponseStays(m.parser)
    ensures One(m, LF) == ResponseEnded(m)
  {
    hide Switch, NewMessage, OnMessageComplete, OnHeadersComplete, Bodyless;
    ResponseDecides(Counted(m.parser));
    assert [HeadersComplete, MessageComplete][1..] == [MessageComplete] && [MessageComplete][1..] == [] && [HeadersComplete][1..] == [];
    assert Perform(OnHeadersComplete(m.ctx), None, [MessageComplete], LF) == OnMessageComplete(OnHeadersComplete(m.ctx));
    assert Counted(m.parser).(nread := 0, upgrade := false) == m.parser.(nread := 0, upgrade := false);
  }

  lemma ResponseEndRuns(m: Machine)
    requires m.parser.st.FieldStart? && m.parser.nread + 2 <= MAX_HEADER_SIZE && ResponseStays(m.parser)
    ensures Run(m, CRLF) == ResponseEnded(m)
  {
    hide One, Run, OnMessageComplete, OnHeadersComplete, NewMessage, Bodyless;
    EndCr(m);
    var a := On(m, 1, HeadersAlmostDone);
    ReadOne(m, CR, a);
    ResponseByLf(a);
    assert [CR] + [LF] == CRLF;
    ReadsRun(m, [CR], a);
    RunOne(m, [CR], LF);
    var p := m.parser.(nread := 0, upgrade := false);
    NewMessageFrom(p, p.(st := HeadersAlmostDone));
  }

  // ------------------------------------------------------------------ whole responses

  function ResponseHead(top: Reply, ls: seq<Line>): string
    requires ReplyOk(top) && LinesOk(ls)
  {
    ReplyText(top) + HeadersText(HeadersOf(ls)) + CRLF
  }

  predicate Answerable(top: Reply, ls: seq<Line>)
  {
    ReplyOk(top) && ls != [] && LinesOk(ls) && OneLength(ls) && |ResponseHead(top, ls)| <= MAX_HEADER_SIZE
  }

  /** The parser and the consumer behind the last header line. */
  predicate AtResponseEnd(p: Parser, c: Ctx, top: Reply, ls: seq<Line>)
    requires LinesOk(ls) && ls != []
  {
    && p.st.FieldStart? && p.kind.Response? && !p.lenient && !p.verb.CONNECT? && p.status == top.code && p.major == top.major && p.minor == top.minor
    && FramingOf(p) == Effects(NOTHING, ls) && !p.flags.trailing
    && c.status == top.reason && c.body == "" && c.recv && c.completions == 0
    && Insert(c.headers, c.field, c.value) == Collected(HeadersOf(ls))
  }

  lemma ResponseTells(a: Machine, b: Machine, ls: seq<Line>)
    requires LinesOk(ls) && BlockRuns(a, b, ls) && FramingOf(a.parser) == NOTHING
    ensures Settle(b).parser.status == a.parser.status
  {
  }

  lemma FreshResponseIsNothing(p: Parser)
    requires p.te == false && p.flags == NO_FLAGS && p.contentLength == ULLONG_MAX
    ensures FramingOf(p) == NOTHING && !p.flags.contentLength && !NO_FLAGS.trailing
  {
  }

  lemma ResponseHeadRuns(top: Reply, ls: seq<Line>) returns (p: Parser, c: Ctx)
    requires Answerable(top, ls)
    ensures AtResponseEnd(p, c, top, ls)
    ensures p.nread + 2 <= MAX_HEADER_SIZE
    ensures ResponseStays(p) ==> Run(Machine(Fresh(Response), NEW_CTX), ResponseHead(top, ls)) == ResponseEnded(Machine(p, c))
  {
    hide One, Run, ReplyOk, ReplyText, HeadersText, HeadersOf, LineOk, ResponseStays, ResponseEnded, Reads, BlockRuns, FramingOf, OneLine;
    var m := Machine(Fresh(Response), NEW_CTX);
    var line, hs := ReplyText(top), HeadersOf(ls);
    ReplyRun(m, top);
    var a := Machine(Clean(m.parser).(major := top.major, minor := top.minor, status := top.code, index := 0, st := FieldStart, nread := |line|),
                     m.ctx.(status := top.reason));
    assert "" + top.reason == top.reason;
    FreshResponseIsNothing(a.parser);
    var b := BlockRun(a, ls);
    var s := Settle(b);
    p, c := s.parser, s.ctx;
    BlockTells(a, b, ls);
    ResponseTells(a, b, ls);
    EffectsKeepTrailing(NOTHING, ls);
    FirstsNonempty(ls);
    HeadersCollected(a.ctx, hs);
    ReadOn(m, line, a, HeadersText(hs), b);
    ReadsRun(m, line + HeadersText(hs), b);
    if ResponseStays(p) {
      SettledRun(b, CRLF);
      ResponseEndRuns(s);
      RunJoin(m, line + HeadersText(hs), CRLF);
      NotLeft(s);
    }
  }

  lemma NotLeft(m: Machine)
    requires ResponseStays(m.parser)
    ensures !ResponseEnded(m).Left?
  {
  }

  /** Everything in a response has arrived, once, and the connection goes on or not. */
  predicate Answered(r: Result, top: Reply, ls: seq<Line>, body: string)
    requires LinesOk(ls)
  {
    r.Done? && r.m.parser.status == top.code && r.m.ctx.status == top.reason && r.m.ctx.headers == Collected(HeadersOf(ls)) && r.m.ctx.body == body
    && !r.m.ctx.recv && r.m.ctx.completions == 1
    && r.m.parser.st == if Persists(top.major, top.minor, Effects(NOTHING, ls).flags) then StartRes else Dead
  }

  lemma AnswersWith(p: Parser, c: Ctx, top: Reply, ls: seq<Line>, q: Parser, body: string)
    requires LinesOk(ls) && ls != [] && AtResponseEnd(p, c, top, ls)
    requires q.kind == p.kind && q.status == p.status && q.major == p.major && q.minor == p.minor && q.flags.close == p.flags.close && q.flags.keepAlive == p.flags.keepAlive
    requires q.flags.chunked || (!q.te && (q.contentLength != ULLONG_MAX || Bodyless(top.code)))
    ensures Answered(Completed(q, OnHeadersComplete(c), body), top, ls, body)
  {
    hide Insert, Collected, HeadersOf, Effects;
    InformationalCodes(top.code);
    assert "" + body == body;
  }

  lemma ResponseStaysIf(p: Parser, c: Ctx, top: Reply, ls: seq<Line>)
    requires LinesOk(ls) && ls != [] && AtResponseEnd(p, c, top, ls) && NoUpgrade(Effects(NOTHING, ls))
    ensures ResponseStays(p) && p.flags == Effects(NOTHING, ls).flags && p.te == Effects(NOTHING, ls).te
      && p.contentLength == Effects(NOTHING, ls).length
  {
    hide Effects, Collected, Insert, HeadersOf;
  }

  lemma AnswerableLines(top: Reply, ls: seq<Line>)
    requires Answerable(top, ls)
    ensures LinesOk(ls) && ls != [] && ReplyOk(top)
  {
  }

  /** A response whose last coding is "chunked": the body is the chunks put together, whatever the status. */
  lemma ChunkedResponse(top: Reply, ls: seq<Line>, chunks: seq<string>)
    requires Answerable(top, ls) && NoUpgrade(Effects(NOTHING, ls))
    requires Effects(NOTHING, ls).flags.chunked && !Effects(NOTHING, ls).flags.contentLength
    requires forall k | 0 <= k < |chunks| :: 0 < |chunks[k]| <= MAX_CHUNK
    ensures Answered(Run(Machine(Fresh(Response), NEW_CTX), ResponseHead(top, ls) + ChunkedText(chunks)), top, ls, Joined(chunks))
  {
    hide One, Run, Answerable, Answered, ChunkedText, ResponseHead, Effects, Joined, Bodyless;
    AnswerableLines(top, ls);
    var p, c := ResponseHeadRuns(top, ls);
    ResponseStaysIf(p, c, top, ls);
    var b := Machine(p.(nread := 0, upgrade := false, st := ChunkSizeStart), OnHeadersComplete(c));
    RunJoin(Machine(Fresh(Response), NEW_CTX), ResponseHead(top, ls), ChunkedText(chunks));
    ChunkedBody(b, chunks);
    AnswersWith(p, c, top, ls,
      b.parser.(nread := 2, contentLength := 0, flags := b.parser.flags.(trailing := true), st := MessageDone), Joined(chunks));
  }

  /** A response with a length, and no transfer coding: the body is that many bytes. */
  lemma SizedResponse(top: Reply, ls: seq<Line>, body: string)
    requires Answerable(top, ls) && NoUpgrade(Effects(NOTHING, ls))
    requires !Effects(NOTHING, ls).te && !Effects(NOTHING, ls).flags.chunked && Effects(NOTHING, ls).length == |body| < ULLONG_MAX
    ensures Answered(Run(Machine(Fresh(Response), NEW_CTX), ResponseHead(top, ls) + body), top, ls, body)
  {
    hide One, Run, Answerable, Answered, ResponseHead, Effects, Bodyless;
    AnswerableLines(top, ls);
    var p, c := ResponseHeadRuns(top, ls);
    ResponseStaysIf(p, c, top, ls);
    RunJoin(Machine(Fresh(Response), NEW_CTX), ResponseHead(top, ls), body);
    var q := p.(nread := 0, upgrade := false);
    if body == "" {
      Empty(Machine(NewMessage(q), OnMessageComplete(OnHeadersComplete(c))));
      AnswersWith(p, c, top, ls, q, "");
      NoBody(OnHeadersComplete(c));
    } else {
      var b := Machine(q.(st := BodyIdentity), OnHeadersComplete(c));
      IdentityBody(b, body);
      AnswersWith(p, c, top, ls, b.parser.(contentLength := 0, st := MessageDone), body);
    }
  }

  /** A transfer coding beside a length is refused. */
  lemma BothRefused(top: Reply, ls: seq<Line>, rest: string)
    requires Answerable(top, ls) && NoUpgrade(Effects(NOTHING, ls)) && Effects(NOTHING, ls).te && Effects(NOTHING, ls).flags.contentLength
    ensures Run(Machine(Fresh(Response), NEW_CTX), ResponseHead(top, ls) + rest).Failed?
  {
    hide One, Run, Answerable, ResponseHead, Effects, Bodyless;
    AnswerableLines(top, ls);
    var p, c := ResponseHeadRuns(top, ls);
    ResponseStaysIf(p, c, top, ls);
    RunJoin(Machine(Fresh(Response), NEW_CTX), ResponseHead(top, ls), rest);
  }

  /** With neither a length nor a coding: no body for the statuses that have none, and otherwise everything up to the end
      of the connection. */
  lemma OpenResponse(top: Reply, ls: seq<Line>, rest: string)
    requires Answerable(top, ls) && NoUpgrade(Effects(NOTHING, ls))
    requires !Effects(NOTHING, ls).flags.chunked && !Effects(NOTHING, ls).flags.contentLength && Effects(NOTHING, ls).length == ULLONG_MAX
    ensures var head := Run(Machine(Fresh(Response), NEW_CTX), ResponseHead(top, ls));
      if Bodyless(top.code) && !Effects(NOTHING, ls).te then Answered(head, top, ls, "")
      else Unended(Run(Machine(Fresh(Response), NEW_CTX), ResponseHead(top, ls) + rest), top, ls, rest)
  {
    hide One, Run, Answerable, Answered, ResponseHead, Effects, Bodyless;
    AnswerableLines(top, ls);
    var p, c := ResponseHeadRuns(top, ls);
    ResponseStaysIf(p, c, top, ls);
    var q := p.(nread := 0, upgrade := false);
    if Bodyless(top.code) && !Effects(NOTHING, ls).te {
      AnswersWith(p, c, top, ls, q, "");
      NoBody(OnHeadersComplete(c));
    } else {
      var b := Machine(q.(st := BodyIdentityEof), OnHeadersComplete(c));
      EofBulk(b, rest);
      RunJoin(Machine(Fresh(Response), NEW_CTX), ResponseHead(top, ls), rest);
      assert "" + rest == rest;
    }
  }

  /** The body so far, of a message that only the end of the connection completes. */
  predicate Unended(r: Result, top: Reply, ls: seq<Line>, body: string)
    requires LinesOk(ls)
  {
    r.Done? && r.m.parser.status == top.code && r.m.ctx.status == top.reason && r.m.ctx.headers == Collected(HeadersOf(ls)) && r.m.ctx.body == body
    && r.m.ctx.recv && r.m.ctx.completions == 0 && r.m.parser.st.BodyIdentityEof?
  }
}
