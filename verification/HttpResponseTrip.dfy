/** YS_HttpResponse::format, and when what it prints is read back. */
module HttpResponseTrip {
  import opened HttpAutomaton
  import opened HttpHeaders
  import opened HttpConsumer
  import opened HttpMarks
  import opened HttpRuns
  import opened HttpBodies
  import opened HttpFraming
  import opened HttpRequestLine
  import opened HttpHeaderLines
  import opened HttpRoundTrip
  import opened HttpTransfer
  import opened HttpResponses

  // ------------------------------------------------------------------ format

  /** The headers as format leaves them: a Content-Length that is set already is kept. */
  function Filled(h: seq<Header>, body: string): seq<Header> {
    Default(Default(h, LENGTH_NAME, Decimal(|body|)), "Connection", "close")
  }

  function StatusLineText(code: nat, reason: string): string { "HTTP/1.1 " + Decimal(code) + " " + reason + CRLF }

  function ResponseText(code: nat, reason: string, h: seq<Header>): string { StatusLineText(code, reason) + HeadersText(h) + CRLF }

  class HttpResponse {
    var status: nat
    var headers: seq<Header>
    var body: string

    method SetDefault(k: string, v: string)
      modifies this`headers
      ensures headers == Default(old(headers), k, v)
    {
      if !Has(headers, k) { headers := SetHeader(headers, k, v); }
    }

    /** `phrase` stands for http_status_str. */
    method Format(phrase: string) returns (resp: string)
      modifies this`headers
      ensures headers == Filled(old(headers), body) && resp == ResponseText(status, phrase, headers) + body
    {
      hide HeadersText, Decimal;
      resp := "HTTP/1.1 ";
      resp := resp + Decimal(status);
      resp := resp + " ";
      resp := resp + phrase;
      resp := resp + "\r\n";
      assert resp == StatusLineText(status, phrase);
      SetDefault("Content-Length", Decimal(|body|));
      SetDefault("Connection", "close");
      resp := AppendLines(resp, headers);
      resp := resp + body;
    }
  }

  /** What a printed response has under every key. */
  lemma FilledSays(h: seq<Header>, body: string, x: string)
    ensures Only(Filled(h, body), x) ==
      if Only(h, x) != [] then Only(h, x)
      else if x == "Content-Length" then [("Content-Length", Decimal(|body|))]
      else if x == "Connection" then [("Connection", "close")]
      else []
  {
    hide Only, Default, HasCrlf, Decimal;
    Constants();
    DecimalIsPlain(|body|);
    KeysDiffer();
    DefaultSays(h, LENGTH_NAME, Decimal(|body|), x);
    DefaultSays(Default(h, LENGTH_NAME, Decimal(|body|)), "Connection", "close", x);
  }

  // ------------------------------------------------------------------ headers that can be printed

  /** Ordinary headers, and perhaps one Content-Length of n; without one, n is the length of the body. */
  predicate Fit(h: seq<Header>, body: string, n: nat) {
    Sorted(h) && AllFit(h, n) && Count(h, LENGTH_NAME) <= 1 && (Count(h, LENGTH_NAME) == 0 ==> n == |body|) && n <= MAX_LENGTH
  }

  lemma LengthDefault(h: seq<Header>, body: string, n: nat)
    requires Fit(h, body, n)
    ensures var a := Default(h, LENGTH_NAME, Decimal(|body|));
      Sorted(a) && RestFits(a) && AllFit(a, n) && Count(a, LENGTH_NAME) == 1
  {
    hide OrdinaryName, PlainValue, Less, Decimal, Insert, HasCrlf;
    Constants();
    DecimalIsPlain(|body|);
    CountHas(h, LENGTH_NAME);
    InsertMembers(h, LENGTH_NAME, Decimal(|body|));
    InsertKeepsOrder(h, LENGTH_NAME, Decimal(|body|));
    CountInsert(h, LENGTH_NAME, Decimal(|body|), LENGTH_NAME);
  }

  lemma FilledFits(h: seq<Header>, body: string, n: nat)
    requires Fit(h, body, n)
    ensures var p := Filled(h, body);
      Sorted(p) && p != [] && Printable(p, n) && Has(p, LENGTH_NAME) && (forall x | x in p :: x.0 != "")
  {
    hide Sorted, RestFits, AllFit, Default, Decimal, Printable, Has;
    LengthDefault(h, body, n);
    ConnectedFits(Default(h, LENGTH_NAME, Decimal(|body|)), n);
  }

  // ------------------------------------------------------------------ bytes behind a message

  predicate MarksNoBody(o: Outcome) { o.Fail? || Mark(Body) !in o.acts }

  lemma StartNoBody(p: Parser, c: char)
    requires InStartLine(p.st)
    ensures MarksNoBody(StartLine(p, c))
  {
    if p.st.ReqSpacesBeforeUrl? || InUrl(p.st) {
      hide ParseUrlChar;
    } else if p.st.ResStatusStart? || p.st.ResStatus? || p.st.ResStatusCode? {
    } else {
      LineQuiet(p, c);
    }
  }

  lemma EndNoBody(p: Parser)
    ensures MarksNoBody(OnHeadersDone(p)) && MarksNoBody(OnMessageDone(p))
  {
    hide NewMessage, NeedsEof;
  }

  lemma ThenNoBody(acts: seq<Act>, o: Outcome)
    requires Mark(Body) !in acts && MarksNoBody(o)
    ensures MarksNoBody(Then(acts, o))
  {
  }

  lemma FieldStartNoBody(p: Parser, c: char)
    ensures MarksNoBody(OnHeadersAlmostDone(p, c)) && MarksNoBody(OnFieldStart(p, c))
  {
    hide OnHeadersDone, OnMessageDone, Token, MarksNoBody;
    AlmostNoBody(p, c);
    AlmostNoBody(p.(st := HeadersAlmostDone), c);
    if c != LF { NameNoBody(p, c); }
  }

  lemma AlmostNoBody(p: Parser, c: char)
    ensures MarksNoBody(OnHeadersAlmostDone(p, c))
  {
    hide OnHeadersDone, OnMessageDone;
    EndNoBody(p.(st := MessageDone));
    EndNoBody(p.(upgrade := true));
    EndNoBody(p.(upgrade := false));
    ThenNoBody([HeadersComplete], OnHeadersDone(p.(upgrade := true)));
    ThenNoBody([HeadersComplete], OnHeadersDone(p.(upgrade := false)));
  }

  lemma NameNoBody(p: Parser, c: char)
    requires c != LF
    ensures MarksNoBody(OnFieldStart(p, c))
  {
    hide OnHeadersAlmostDone, Token;
  }

  lemma ValueNoBody(p: Parser, c: char)
    ensures MarksNoBody(OnValueStart(p, c))
    ensures p.st.Field? ==> MarksNoBody(OnField(p, c))
    ensures p.st.DiscardWs? ==> MarksNoBody(OnDiscardWs(p, c))
    ensures p.st.Value? ==> MarksNoBody(OnValue(p, c))
  {
    hide Token, Lower, MatchField, MatchValue, FirstOfConnection, IsHeaderChar;
    if p.st.Value? { MatchValueQuiet(p, c); }
  }

  lemma LwsNoBody(p: Parser, c: char)
    ensures MarksNoBody(OnValueLws(p, c)) && MarksNoBody(OnDiscardLws(p, c))
  {
    hide OnValueStart, OnFieldStart, FinishHeader;
    ValueNoBody(p.(hs := if p.hs.ContentLengthNum? then ContentLengthWs else p.hs), c);
    FieldStartNoBody(FinishHeader(p), c);
    ThenNoBody([Mark(ValueData), Flush(ValueData)], OnFieldStart(FinishHeader(p), c));
  }

  predicate MarksBody(st: State) { st.ChunkData? || st.BodyIdentity? || st.BodyIdentityEof? }

  lemma HeaderNoBody(p: Parser, c: char)
    requires InHeader(p.st)
    ensures MarksNoBody(Switch(p, c))
  {
    hide MarksNoBody, StartLine, OnFieldStart, OnField, OnDiscardWs, OnDiscardLws, OnValueStart, OnValue, OnValueLws, OnHeadersAlmostDone;
    ValueNoBody(p, c);
    LwsNoBody(p, c);
    FieldStartNoBody(p, c);
  }

  lemma FramingNoBody(p: Parser, c: char)
    requires Expected(p.st).None? && !InStartLine(p.st) && !InHeader(p.st) && !SizingChunk(p.st) && !MarksBody(p.st)
    ensures MarksNoBody(Switch(p, c))
  {
    hide StartLine, OnHeadersDone, OnMessageDone, OnFieldStart, OnDiscardLws, OnValueLws;
    EndNoBody(p);
  }

  /** Only body bytes are marked as such. */
  lemma SwitchNoBody(p: Parser, c: char)
    requires !MarksBody(p.st)
    ensures MarksNoBody(Switch(p, c))
  {
    hide StartLine, OnHeadersDone, OnMessageDone, OnFieldStart, OnDiscardLws, OnValueLws;
    if Expected(p.st).Some? {
    } else if InStartLine(p.st) {
      StartNoBody(p, c);
    } else if InHeader(p.st) {
      HeaderNoBody(p, c);
    } else if SizingChunk(p.st) {
      SizingQuiet(p, c);
    } else {
      FramingNoBody(p, c);
    }
  }

  lemma DeliverElsewhere(c: Ctx, d: Data, s: string)
    requires !d.Body?
    ensures Deliver(c, d, s).body == c.body
  {
    hide Insert;
  }

  lemma {:induction false} PerformNoBody(c: Ctx, mark: Option<Data>, acts: seq<Act>, b: char)
    requires Mark(Body) !in acts && mark != Some(Body)
    ensures Perform(c, mark, acts, b).body == c.body
    decreases |acts|
  {
    hide Deliver, Insert;
    if acts == [] {
      if mark.Some? { DeliverElsewhere(c, mark.value, [b]); }
    } else {
      var rest := acts[1..];
      assert acts[0] in acts && forall a | a in rest :: a in acts;
      match acts[0]
      case Mark(d) => PerformNoBody(c, if mark.None? then Some(d) else mark, rest, b);
      case Flush(d) =>
        if mark == Some(d) { DeliverElsewhere(c, d, ""); PerformNoBody(Deliver(c, d, ""), None, rest, b); }
        else { PerformNoBody(c, mark, rest, b); }
      case FlushThis(d) =>
        if mark == Some(d) { DeliverElsewhere(c, d, [b]); PerformNoBody(Deliver(c, d, [b]), None, rest, b); }
        else { PerformNoBody(c, mark, rest, b); }
      case HeadersComplete => PerformNoBody(OnHeadersComplete(c), mark, rest, b);
      case MessageComplete => PerformNoBody(OnMessageComplete(c), mark, rest, b);
    }
  }

  lemma OutsideBody(m: Machine, b: char)
    requires !MarksBody(m.parser.st) && One(m, b).Done?
    ensures One(m, b).m.ctx.body == m.ctx.body
  {
    hide Switch, Perform;
    SwitchNoBody(Counted(m.parser), b);
    var o := Advance(m.parser, b);
    assert o == Switch(Counted(m.parser), b);
    PerformNoBody(m.ctx, MarkAt(m.parser.st), o.acts, b);
  }

  lemma InsideIdentity(m: Machine, b: char)
    requires m.parser.st.BodyIdentity? && One(m, b).Done?
    ensures One(m, b).m.ctx.body == m.ctx.body + [b]
  {
    hide Switch, NewMessage;
    if m.parser.contentLength > 0 {
      IdentityActs(Counted(m.parser), b);
      var acts := [Mark(Body), FlushThis(Body), MessageComplete];
      assert acts[1..] == [FlushThis(Body), MessageComplete] && acts[1..][1..] == [MessageComplete] && acts[1..][1..][1..] == [];
      assert [Mark(Body)][1..] == [];
    } else {
      NoLengthLeft(Counted(m.parser), b);
    }
  }

  lemma NoLengthLeft(p: Parser, b: char)
    requires (p.st.BodyIdentity? || p.st.ChunkData?) && p.contentLength == 0
    ensures Switch(p, b).Fail?
  {
  }

  lemma InsideBody(m: Machine, b: char)
    requires MarksBody(m.parser.st) && One(m, b).Done?
    ensures One(m, b).m.ctx.body == m.ctx.body + [b]
  {
    if m.parser.st.BodyIdentity? { InsideIdentity(m, b); }
    else if m.parser.st.ChunkData? && m.parser.contentLength > 0 { ChunkByte(m, b); }
    else if m.parser.st.ChunkData? { NoLengthLeft(Counted(m.parser), b); hide Switch; }
    else { EofBulk(m, ""); assert [Mark(Body)][1..] == []; }
  }

  lemma IdentityActs(p: Parser, b: char)
    requires p.st.BodyIdentity? && p.contentLength > 0
    ensures var o := Switch(p, b); !o.Fail? && (o.acts == [Mark(Body)] || o.acts == [Mark(Body), FlushThis(Body), MessageComplete])
  {
    hide NewMessage;
    assert [Mark(Body), FlushThis(Body)] + [MessageComplete] == [Mark(Body), FlushThis(Body), MessageComplete];
  }

  /** No byte adds more than itself to a body. */
  lemma {:induction false} BodyGrows(m: Machine, s: string)
    requires Run(m, s).Done?
    ensures |Run(m, s).m.ctx.body| <= |m.ctx.body| + |s|
  {
    hide One;
    if s != "" {
      var init, b := s[..|s| - 1], s[|s| - 1];
      assert s == init + [b];
      BodyGrows(m, init);
      var a := Run(m, init).m;
      if MarksBody(a.parser.st) { InsideBody(a, b); } else { OutsideBody(a, b); }
    }
  }

  /** Bytes behind a whole message are not all body: the first of them is none. */
  lemma BehindMessage(m: Machine, s: string)
    requires s != "" && !MarksBody(m.parser.st) && Run(m, s).Done?
    ensures |Run(m, s).m.ctx.body| < |m.ctx.body| + |s|
  {
    hide One, Run;
    assert s == [s[0]] + s[1..] && "" + [s[0]] == [s[0]];
    Empty(m);
    RunOne(m, "", s[0]);
    RunJoin(m, [s[0]], s[1..]);
    OutsideBody(m, s[0]);
    BodyGrows(One(m, s[0]).m, s[1..]);
  }

  // ------------------------------------------------------------------ the round trip

  /** The response is back: complete, once, and with this body. */
  predicate Back(r: Result, body: string) { r.Done? && r.m.ctx.completions == 1 && r.m.ctx.body == body }

  lemma AfterMessage(p: Parser)
    ensures !MarksBody(NewMessage(p).st)
  {
  }

  /** From a body of n bytes that is still to come: any n other than the length of what comes shows. */
  lemma BodyComes(m: Machine, body: string)
    requires m.parser.st.BodyIdentity? && m.parser.contentLength > 0 && !m.parser.upgrade && m.ctx.body == "" && m.ctx.completions == 0
    ensures Back(Run(m, body), body) <==> m.parser.contentLength == |body|
    ensures m.parser.contentLength == |body| ==> Run(m, body) == HttpFraming.Completed(m.parser.(contentLength := 0, st := MessageDone), m.ctx, body)
  {
    hide Run, One, NewMessage;
    var n := m.parser.contentLength;
    if |body| < n {
      IdentityBulk(m, body);
    } else {
      var first, rest := body[..n], body[n..];
      IdentityBody(m, first);
      assert body == first + rest && "" + first == first;
      RunJoin(m, first, rest);
      var a := Run(m, first).m;
      AfterMessage(m.parser.(contentLength := 0, st := MessageDone));
      if rest == "" {
        assert first == body;
      } else if Run(a, rest).Done? {
        BehindMessage(a, rest);
      }
    }
  }

  /** The same from the empty line on, with any length. */
  lemma EndComes(m: Machine, body: string, n: nat)
    requires m.parser.st.FieldStart? && m.parser.nread + 2 <= MAX_HEADER_SIZE && ResponseStays(m.parser)
    requires !m.parser.te && !m.parser.flags.chunked && m.parser.contentLength == n < ULLONG_MAX && m.ctx.body == "" && m.ctx.completions == 0
    ensures Back(Run(m, CRLF + body), body) <==> n == |body|
    ensures n == |body| ==> var r := Run(m, CRLF + body);
      r.m.ctx == OnMessageComplete(OnHeadersComplete(m.ctx).(body := body)) && r.m.parser.status == m.parser.status
  {
    hide Run, One, ResponseStays, Insert;
    ResponseEndRuns(m);
    RunJoin(m, CRLF, body);
    var q, c := m.parser.(nread := 0, upgrade := false), OnHeadersComplete(m.ctx);
    if n == 0 {
      var a := Machine(NewMessage(q), OnMessageComplete(c));
      AfterMessage(q);
      Empty(a);
      if body != "" && Run(a, body).Done? { BehindMessage(a, body); }
    } else {
      BodyComes(Machine(q.(st := BodyIdentity), c), body);
      assert "" + body == body;
    }
  }

  /** The header block of a printed response. */
  lemma BlockComes(m: Machine, h: seq<Header>, n: nat) returns (b: Machine)
    requires m.parser.st.FieldStart? && m.parser.contentLength == ULLONG_MAX && m.parser.kind.Response? && !m.parser.lenient
    requires !m.parser.te && m.parser.flags == NO_FLAGS && !m.parser.verb.CONNECT? && n <= MAX_LENGTH
    requires Ready(m.ctx) && m.ctx.field == "" && m.ctx.headers == [] && m.ctx.body == ""
    requires Sorted(h) && h != [] && Printable(h, n) && (forall x | x in h :: x.0 != "") && Has(h, LENGTH_NAME)
    requires m.parser.nread + |HeadersText(h)| + 2 <= MAX_HEADER_SIZE
    ensures Reads(m, HeadersText(h), b) && (b.parser.st.DiscardLws? ==> !b.parser.hs.ContentLength?)
    ensures var a := Settle(b);
      && a.parser.st.FieldStart? && a.parser.nread + 2 <= MAX_HEADER_SIZE && ResponseStays(a.parser) && a.parser.status == m.parser.status
      && !a.parser.te && !a.parser.flags.chunked && a.parser.contentLength == n
      && a.ctx.status == m.ctx.status && a.ctx.body == "" && a.ctx.completions == m.ctx.completions
      && OnHeadersComplete(a.ctx).headers == h && a.ctx.recv == m.ctx.recv
  {
    hide Run, One, Printable, Sorted, Decimal, HeadersText, FinishHeader, Has, Insert;
    b := LinesRun(m, h, n);
    HeadersKept(m.ctx, h);
    SortedAppends(h);
  }

  /** A response with a status of at most three digits comes back from what format prints if and only if the Content-Length it was
      given, if any, is the length of its body; and then all of it does. */
  lemma ResponseReturns(code: nat, reason: string, h: seq<Header>, body: string, n: nat)
    requires code <= 999 && OneLine(reason) && Fit(h, body, n) && |ResponseText(code, reason, Filled(h, body))| <= MAX_HEADER_SIZE
    ensures var r := Run(Machine(Fresh(Response), NEW_CTX), ResponseText(code, reason, Filled(h, body)) + body);
      && (Back(r, body) <==> n == |body|)
      && (n == |body| ==> r.m.parser.status == code && r.m.ctx.status == reason && r.m.ctx.headers == Filled(h, body) && !r.m.ctx.recv)
  {
    hide Run, One, Printable, Sorted, HeadersText, StatusLineText, ReplyText, Filled, OneLine, Insert, Fit, Has, ResponseStays;
    var p := Filled(h, body);
    FilledFits(h, body, n);
    assert n <= MAX_LENGTH by { FitLength(h, body, n); }
    var m := Machine(Fresh(Response), NEW_CTX);
    var line := StatusLineText(code, reason);
    PrintedLine(code, reason);
    ReplyRun(m, Reply(code, reason, 1, 1));
    assert "" + reason == reason;
    var a := Run(m, line).m;
    var b := BlockComes(a, p, n);
    RunJoin(m, line, HeadersText(p) + (CRLF + body));
    RunJoin(a, HeadersText(p), CRLF + body);
    assert (CRLF + body)[0] == CR;
    SettledRun(b, CRLF + body);
    EndComes(Settle(b), body, n);
    assert line + (HeadersText(p) + (CRLF + body)) == ResponseText(code, reason, p) + body;
  }

  lemma PrintedLine(code: nat, reason: string)
    requires code <= 999 && OneLine(reason)
    ensures ReplyOk(Reply(code, reason, 1, 1)) && ReplyText(Reply(code, reason, 1, 1)) == StatusLineText(code, reason)
  {
    assert "HTTP/" + ReplyVersion(1, 1) == "HTTP/1.1 ";
  }

  lemma FitLength(h: seq<Header>, body: string, n: nat)
    requires Fit(h, body, n)
    ensures n <= MAX_LENGTH
  {
  }

  /** A status of four digits or more is never read back. */
  lemma LongStatusRefused(code: nat, rest: string)
    requires code > 999 && |Decimal(code)| < 1000
    ensures Run(Machine(Fresh(Response), NEW_CTX), "HTTP/1.1 " + Decimal(code) + rest).Failed?
  {
    hide Run, One, Clean, Decimal;
    var m := Machine(Fresh(Response), NEW_CTX);
    ReadName(m);
    var a := Machine(Clean(m.parser).(nread := 5, st := ResMajor), m.ctx);
    ReadReplyVersion(a, 1, 1);
    var b := Machine(a.parser.(nread := 9, major := 1, minor := 1, st := ResFirstStatusCode), m.ctx);
    ReadOn(m, "HTTP/", a, ReplyVersion(1, 1), b);
    assert "HTTP/" + ReplyVersion(1, 1) == "HTTP/1.1 ";
    ReadsRun(m, "HTTP/1.1 ", b);
    StatusCodeRead(b, code);
    RunJoin(m, "HTTP/1.1 ", Decimal(code));
    RunJoin(m, "HTTP/1.1 " + Decimal(code), rest);
  }
}
