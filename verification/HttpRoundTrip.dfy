/** YS_HttpRequest::format, and parsing back what it prints. */
module HttpRoundTrip {
  import opened HttpAutomaton
  import opened HttpHeaders
  import opened HttpConsumer
  import opened HttpBytes
  import opened HttpBodies
  import opened HttpFraming
  import opened HttpRequestLine
  import opened HttpHeaderLines

  // ------------------------------------------------------------------ one header line

  /** A context between two headers: the last pair is held back until the next name starts. */
  predicate Ready(c: Ctx) { c.lastIsVal && (c.field == "" ==> c.value == "") }

  function AfterHeader(c: Ctx, k: string, v: string): Ctx {
    OnFieldData(c, k).(value := v, lastIsVal := true)
  }

  /** A finished header is only seen to be finished by the byte after it; this is the parser as that byte finds it. */
  function Settle(m: Machine): Machine {
    if m.parser.st.ValueLws? then Machine(FinishHeader(m.parser), m.ctx)
    else if m.parser.st.DiscardLws? then Machine(FinishHeader(m.parser), Deliver(m.ctx, ValueData, ""))
    else m
  }

  lemma LwsSwitch(p: Parser, c: char)
    requires c != ' ' && c != TAB
    ensures p.st.ValueLws? ==> Switch(p, c) == OnFieldStart(FinishHeader(p), c)
    ensures p.st.DiscardLws? && !p.hs.ContentLength? ==>
      Switch(p, c) == Then([Mark(ValueData), Flush(ValueData)], OnFieldStart(FinishHeader(p), c))
    ensures p.st.FieldStart? ==> Switch(p, c) == OnFieldStart(p, c)
  {
    hide OnFieldStart;
  }

  lemma EmptyValueFirst(c: Ctx, acts: seq<Act>, b: char)
    ensures Perform(c, None, [Mark(ValueData), Flush(ValueData)] + acts, b) == Perform(Deliver(c, ValueData, ""), None, acts, b)
  {
    var all := [Mark(ValueData), Flush(ValueData)] + acts;
    assert all[1..] == [Flush(ValueData)] + acts && all[1..][1..] == acts;
    assert Perform(c, Some(ValueData), all[1..], b) == Perform(Deliver(c, ValueData, ""), None, acts, b);
  }

  lemma FinishCounted(p: Parser)
    requires p.st.ValueLws? || p.st.DiscardLws?
    ensures FinishHeader(Counted(p)) == Counted(FinishHeader(p))
  {
  }

  lemma SettledByte(m: Machine, c: char)
    requires c != ' ' && c != TAB && (m.parser.st.DiscardLws? ==> !m.parser.hs.ContentLength?)
    ensures One(m, c) == One(Settle(m), c)
  {
    hide Switch, OnFieldStart, FinishHeader, Deliver;
    if m.parser.st.ValueLws? || m.parser.st.DiscardLws? {
      LwsSwitch(Counted(m.parser), c);
      FinishCounted(m.parser);
      FinishedState(m.parser);
      LwsSwitch(Counted(FinishHeader(m.parser)), c);
      var o := OnFieldStart(Counted(FinishHeader(m.parser)), c);
      if m.parser.st.DiscardLws? && !o.Fail? { EmptyValueFirst(m.ctx, o.acts, c); }
    }
  }

  lemma FinishedState(p: Parser)
    ensures FinishHeader(p).st.FieldStart? && FinishHeader(p).nread == p.nread && FinishHeader(p).hs == p.hs
  {
  }

  lemma SettledRun(m: Machine, s: string)
    requires s != "" && s[0] != ' ' && s[0] != TAB && (m.parser.st.DiscardLws? ==> !m.parser.hs.ContentLength?)
    ensures Run(m, s) == Run(Settle(m), s)
  {
    hide One, Run, Settle;
    SettledByte(m, s[0]);
    assert [s[0]] + s[1..] == s && "" + [s[0]] == [s[0]];
    Empty(m);
    Empty(Settle(m));
    RunOne(m, "", s[0]);
    RunOne(Settle(m), "", s[0]);
    RunJoin(m, [s[0]], s[1..]);
    RunJoin(Settle(m), [s[0]], s[1..]);
  }

  // the bytes around a name and a value

  lemma ColonByte(m: Machine)
    requires m.parser.st.Field? && m.parser.nread < MAX_HEADER_SIZE
    ensures One(m, ':') == Done(Machine(m.parser.(nread := m.parser.nread + 1, st := DiscardWs), OnFieldData(m.ctx, "")))
  {
    hide Advance, OnFieldData;
    FieldEnds(m.parser, ':');
    assert [Flush(FieldData)][1..] == [];
  }

  lemma BlankByte(m: Machine)
    requires m.parser.st.DiscardWs? && m.parser.nread < MAX_HEADER_SIZE
    ensures One(m, ' ') == Done(On(m, 1, DiscardWs))
  {
  }

  lemma EmptyCr(m: Machine)
    requires m.parser.st.DiscardWs? && m.parser.nread < MAX_HEADER_SIZE
    ensures One(m, CR) == Done(On(m, 1, DiscardWsAlmostDone))
  {
  }

  lemma ValueCr(m: Machine)
    requires m.parser.st.Value? && m.parser.nread < MAX_HEADER_SIZE
    ensures One(m, CR) == Done(Machine(m.parser.(nread := m.parser.nread + 1, st := HeaderAlmostDone), Deliver(m.ctx, ValueData, "")))
  {
    hide Advance, Deliver;
    ValueEnds(m.parser, CR);
    assert [Flush(ValueData)][1..] == [];
  }

  function HeaderText(h: Header): string { h.0 + ": " + h.1 + CRLF }

  /** The name, the colon and the blank. */
  lemma NamePart(m: Machine, k: string) returns (q: Parser)
    requires m.parser.st.FieldStart? && TokenName(k) && m.parser.nread + |k| + 2 <= MAX_HEADER_SIZE
    ensures Reads(m, k + ": ", Machine(q, OnFieldData(m.ctx, k)))
    ensures q == m.parser.(st := DiscardWs, hs := q.hs, index := q.index, te := q.te, nread := m.parser.nread + |k| + 2)
    ensures NameKnown(q, LowerName(k), m.parser.te)
  {
    hide One, Run, OnFieldData, NameKnown;
    var p := NameRun(m, k);
    var a := Machine(p, OnFieldData(m.ctx, k));
    ColonByte(a);
    NamesJoin(m.ctx, k, "");
    assert k + "" == k;
    var b := Machine(p.(nread := p.nread + 1, st := DiscardWs), a.ctx);
    ReadChar(m, k, a, ':', k + ":", b);
    BlankByte(b);
    q := On(b, 1, DiscardWs).parser;
    assert k + ":" + [' '] == k + ": ";
    ReadChar(m, k + ":", b, ' ', k + ": ", Machine(q, a.ctx));
    KnownElsewhere(p, q, LowerName(k), m.parser.te);
  }

  lemma KnownElsewhere(p: Parser, q: Parser, t: string, te: bool)
    requires NameKnown(p, t, te) && q.hs == p.hs && q.index == p.index && q.te == p.te
    ensures NameKnown(q, t, te)
  {
    hide Word;
  }

  /** A name that means nothing to body framing or to upgrades. */
  predicate OrdinaryName(k: string) {
    TokenName(k) && LowerName(k) != CONTENT_LENGTH && LowerName(k) != "upgrade" && !(TRANSFER_ENCODING <= LowerName(k))
  }

  /** Where reading a printed line has to lead: the pair held back, framing untouched, ready for the next line. */
  predicate LineRead(m: Machine, b: Machine, h: Header) {
    var a := Settle(b);
    (b.parser.st.ValueLws? || (b.parser.st.DiscardLws? && !b.parser.hs.ContentLength?)) &&
    a.ctx == AfterHeader(m.ctx, h.0, h.1) && a.parser.st.FieldStart? && SameFraming(m.parser, a.parser) &&
    a.parser.nread == m.parser.nread + |HeaderText(h)|
  }

  lemma OrdinaryState(p: Parser, k: string, te: bool)
    requires OrdinaryName(k) && NameKnown(p, LowerName(k), te)
    ensures OtherName(p.hs) && p.te == te && !p.hs.KeepAlive? && !p.hs.Close? && !p.hs.ConnUpgrade? && !p.hs.Chunked?
  {
    hide Word;
    assert TRANSFER_ENCODING <= TRANSFER_ENCODING;
  }

  lemma ValueLineEnds(m: Machine)
    requires m.parser.st.Value? && m.parser.nread + 2 <= MAX_HEADER_SIZE
    ensures Reads(m, CRLF, Machine(m.parser.(nread := m.parser.nread + 2, st := ValueLws), Deliver(m.ctx, ValueData, "")))
  {
    hide One, Run, Deliver;
    ValueCr(m);
    var a := Machine(m.parser.(nread := m.parser.nread + 1, st := HeaderAlmostDone), Deliver(m.ctx, ValueData, ""));
    ReadOne(m, CR, a);
    ExpectedByte(a, LF);
    assert [CR] + [LF] == CRLF;
    ReadChar(m, [CR], a, LF, CRLF, On(a, 1, ValueLws));
  }

  lemma EmptyLineEnds(m: Machine)
    requires m.parser.st.DiscardWs? && m.parser.nread + 2 <= MAX_HEADER_SIZE
    ensures Reads(m, CRLF, On(m, 2, DiscardLws))
  {
    hide One, Run;
    EmptyCr(m);
    var a := On(m, 1, DiscardWsAlmostDone);
    ReadOne(m, CR, a);
    ExpectedByte(a, LF);
    assert [CR] + [LF] == CRLF;
    ReadChar(m, [CR], a, LF, CRLF, On(a, 1, DiscardLws));
  }

  lemma NamedValue(c: Ctx, k: string, v: string)
    requires Ready(c)
    ensures Deliver(Deliver(OnFieldData(c, k), ValueData, v), ValueData, "") == AfterHeader(c, k, v)
    ensures Deliver(OnFieldData(c, k), ValueData, "") == AfterHeader(c, k, "")
    ensures k != "" ==> Ready(AfterHeader(c, k, v)) && AfterHeader(c, k, v).field == k
  {
    var f := OnFieldData(c, k);
    assert f.value == "" && f.value + v == v && v + "" == v && f.value + "" == "";
    assert "" + k == k;
    if c.field == "" { assert c.field + k == k; }
  }

  lemma FinishOther(p: Parser)
    requires OtherValue(p.hs)
    ensures SameFraming(p, FinishHeader(p))
  {
  }

  lemma FinishEmpty(p: Parser)
    requires !p.hs.KeepAlive? && !p.hs.Close? && !p.hs.ConnUpgrade? && !p.hs.Chunked?
    ensures SameFraming(p, FinishHeader(p))
  {
  }

  lemma OrdinaryLine(m: Machine, h: Header) returns (b: Machine)
    requires m.parser.st.FieldStart? && Ready(m.ctx) && OrdinaryName(h.0) && PlainValue(h.1)
    requires m.parser.nread + |HeaderText(h)| <= MAX_HEADER_SIZE
    ensures Reads(m, HeaderText(h), b) && LineRead(m, b, h)
  {
    hide One, Run, OnFieldData, NameKnown, Deliver, OrdinaryName, TokenName, SameFraming, OtherValue, OtherName, FinishHeader, PlainValue, Reads;
    var (k, v) := h;
    OrdinaryIsToken(k);
    var q := NamePart(m, k);
    OrdinaryState(q, k, m.parser.te);
    NamedValue(m.ctx, k, v);
    var a := Machine(q, OnFieldData(m.ctx, k));
    NameFrames(m.parser, q);
    if v == "" {
      EmptyLineEnds(a);
      b := On(a, 2, DiscardLws);
      ReadOn(m, k + ": ", a, CRLF, b);
      assert HeaderText(h) == k + ": " + CRLF;
      FinishEmpty(b.parser);
      FinishedState(b.parser);
      Framed(m.parser, q, b.parser, FinishHeader(b.parser));
      NotLength(b.parser);
    } else {
      var r := ValueRunOther(a, v);
      var c := Machine(r, Deliver(a.ctx, ValueData, v));
      ReadsIs(a, v, c);
      ReadOn(m, k + ": ", a, v, c);
      ValueLineEnds(c);
      b := Machine(r.(nread := r.nread + 2, st := ValueLws), Deliver(c.ctx, ValueData, ""));
      ReadOn(m, k + ": " + v, c, CRLF, b);
      FinishOther(b.parser);
      FinishedState(b.parser);
      SameFramingJoin(m.parser, q, r);
      Framed(m.parser, r, b.parser, FinishHeader(b.parser));
    }
  }

  lemma ReadsIs(m: Machine, s: string, a: Machine)
    requires Run(m, s) == Done(a)
    ensures Reads(m, s, a)
  {
  }

  lemma OrdinaryIsToken(k: string)
    requires OrdinaryName(k)
    ensures TokenName(k) && k != ""
  {
  }

  lemma NotLength(p: Parser)
    requires OtherName(p.hs)
    ensures !p.hs.ContentLength?
  {
  }

  lemma NameFrames(p: Parser, q: Parser)
    requires q == p.(st := DiscardWs, hs := q.hs, index := q.index, te := q.te, nread := q.nread) && q.te == p.te
    ensures SameFraming(p, q)
  {
  }

  lemma Framed(p: Parser, q: Parser, r: Parser, s: Parser)
    requires SameFraming(p, q) && r == q.(nread := r.nread, st := r.st) && SameFraming(r, s)
    ensures SameFraming(p, s)
  {
  }

  // ------------------------------------------------------------------ the Content-Length line

  const LENGTH_NAME := "Content-Length"

  lemma LengthNameLower()
    ensures LowerName(LENGTH_NAME) == CONTENT_LENGTH && TokenName(LENGTH_NAME)
  {
  }

  lemma LengthState(p: Parser, te: bool)
    requires NameKnown(p, CONTENT_LENGTH, te)
    ensures p.hs.ContentLength? && p.te == te
  {
    var t := CONTENT_LENGTH;
    assert t <= CONTENT_LENGTH && !(TRANSFER_ENCODING <= t);
    assert t[0] == 'c';
  }

  /** The parser once a Content-Length of n has been read, if one has. */
  function WithLength(p: Parser, has: bool, n: nat): Parser {
    if has then p.(flags := p.flags.(contentLength := true), contentLength := n) else p
  }

  lemma LengthLine(m: Machine, n: nat) returns (b: Machine)
    requires m.parser.st.FieldStart? && Ready(m.ctx) && !m.parser.flags.contentLength && n <= MAX_LENGTH
    requires m.parser.nread + |HeaderText((LENGTH_NAME, Decimal(n)))| <= MAX_HEADER_SIZE
    ensures Reads(m, HeaderText((LENGTH_NAME, Decimal(n))), b)
    ensures LineRead(Machine(WithLength(m.parser, true, n), m.ctx), b, (LENGTH_NAME, Decimal(n)))
  {
    hide One, Run, OnFieldData, NameKnown, Deliver, TokenName, FinishHeader, Reads, LowerName;
    var (k, v) := (LENGTH_NAME, Decimal(n));
    LengthNameLower();
    var q := NamePart(m, k);
    LengthState(q, m.parser.te);
    NamedValue(m.ctx, k, v);
    var a := Machine(q, OnFieldData(m.ctx, k));
    LengthRead(a, n);
    var r := a.parser.(st := Value, index := 0, flags := a.parser.flags.(contentLength := true), contentLength := n,
                       hs := ContentLengthNum, nread := a.parser.nread + |v|);
    var c := Machine(r, Deliver(a.ctx, ValueData, v));
    ReadsIs(a, v, c);
    ReadOn(m, k + ": ", a, v, c);
    ValueLineEnds(c);
    b := Machine(r.(nread := r.nread + 2, st := ValueLws), Deliver(c.ctx, ValueData, ""));
    ReadOn(m, k + ": " + v, c, CRLF, b);
    FinishEmpty(b.parser);
    FinishedState(b.parser);
    LengthFrames(m.parser, q, b.parser, FinishHeader(b.parser), n);
  }

  lemma LengthFrames(p: Parser, q: Parser, r: Parser, s: Parser, n: nat)
    requires q == p.(st := q.st, hs := q.hs, index := q.index, nread := q.nread)
    requires r == q.(st := r.st, hs := r.hs, index := r.index, nread := r.nread, flags := q.flags.(contentLength := true), contentLength := n)
    requires SameFraming(r, s)
    ensures SameFraming(WithLength(p, true, n), s)
  {
  }

  // ------------------------------------------------------------------ the header block

  function HeadersText(hs: seq<Header>): string {
    if hs == [] then "" else HeadersText(hs[..|hs| - 1]) + HeaderText(hs[|hs| - 1])
  }

  function AfterHeaders(c: Ctx, hs: seq<Header>): Ctx {
    if hs == [] then c else AfterHeader(AfterHeaders(c, hs[..|hs| - 1]), hs[|hs| - 1].0, hs[|hs| - 1].1)
  }

  /** Headers as format prints them for a body of n bytes: ordinary ones, and at most the one Content-Length. */
  predicate Printable(hs: seq<Header>, n: nat) {
    hs == [] ||
    (var (init, h) := (hs[..|hs| - 1], hs[|hs| - 1]);
     Printable(init, n) &&
     if h.0 == LENGTH_NAME then h.1 == Decimal(n) && !Has(init, LENGTH_NAME) else OrdinaryName(h.0) && PlainValue(h.1))
  }

  predicate LinesRead(m: Machine, b: Machine, hs: seq<Header>, n: nat) {
    var a := Settle(b);
    (b.parser.st.DiscardLws? ==> !b.parser.hs.ContentLength?) &&
    a.ctx == AfterHeaders(m.ctx, hs) && Ready(a.ctx) && a.parser.st.FieldStart? &&
    SameFraming(WithLength(m.parser, Has(hs, LENGTH_NAME), n), a.parser) &&
    a.parser.nread == m.parser.nread + |HeadersText(hs)|
  }

  lemma HasGrows(hs: seq<Header>, k: string)
    requires hs != []
    ensures Has(hs, k) <==> Has(hs[..|hs| - 1], k) || hs[|hs| - 1].0 == k
  {
    if hs[|hs| - 1].0 == k { assert hs[|hs| - 1].0 == k; }
    if Has(hs[..|hs| - 1], k) {
      var i :| 0 <= i < |hs| - 1 && hs[..|hs| - 1][i].0 == k;
      assert hs[i].0 == k;
    }
    if Has(hs, k) && hs[|hs| - 1].0 != k {
      var i :| 0 <= i < |hs| && hs[i].0 == k;
      assert hs[..|hs| - 1][i].0 == k;
    }
  }

  lemma FirstByte(h: Header)
    requires TokenName(h.0)
    ensures HeaderText(h) != "" && HeaderText(h)[0] != ' ' && HeaderText(h)[0] != TAB
  {
    assert HeaderText(h)[0] == h.0[0];
    TokenIsNoBlank(h.0[0]);
  }

  /** One more line. */
  lemma NextLine(m: Machine, h: Header, n: nat) returns (b: Machine)
    requires m.parser.st.FieldStart? && Ready(m.ctx) && n <= MAX_LENGTH
    requires if h.0 == LENGTH_NAME then h.1 == Decimal(n) && !m.parser.flags.contentLength else OrdinaryName(h.0) && PlainValue(h.1)
    requires m.parser.nread + |HeaderText(h)| <= MAX_HEADER_SIZE
    ensures Reads(m, HeaderText(h), b)
    ensures LineRead(Machine(WithLength(m.parser, h.0 == LENGTH_NAME, n), m.ctx), b, h)
    ensures TokenName(h.0)
  {
    hide Run, One, LineRead, OrdinaryName, PlainValue, Ready, Decimal;
    if h.0 == LENGTH_NAME {
      LengthNameLower();
      assert h == (LENGTH_NAME, Decimal(n));
      b := LengthLine(m, n);
    } else {
      OrdinaryIsToken(h.0);
      b := OrdinaryLine(m, h);
    }
  }

  lemma Relength(p: Parser, has: bool, more: bool, n: nat, q: Parser, r: Parser)
    requires SameFraming(WithLength(p, has, n), q) && SameFraming(WithLength(q, more, n), r)
    ensures SameFraming(WithLength(p, has || more, n), r)
    ensures q.flags.contentLength == (p.flags.contentLength || has)
  {
  }

  lemma {:induction false} LinesRun(m: Machine, hs: seq<Header>, n: nat) returns (b: Machine)
    requires m.parser.st.FieldStart? && Ready(m.ctx) && !m.parser.flags.contentLength && n <= MAX_LENGTH && Printable(hs, n)
    requires m.parser.nread + |HeadersText(hs)| <= MAX_HEADER_SIZE
    ensures Reads(m, HeadersText(hs), b) && LinesRead(m, b, hs, n)
    decreases |hs|
  {
    hide Run, One, OrdinaryName, PlainValue, Decimal, SameFraming, AfterHeader, HeaderText, FinishHeader, Has;
    if hs == [] {
      b := m;
      Empty(m);
      NoHeaders();
      SameSelf(m.parser);
    } else {
      var init, h := hs[..|hs| - 1], hs[|hs| - 1];
      var a := LinesRun(m, init, n);
      var s := Settle(a);
      HasGrows(hs, LENGTH_NAME);
      Relength(m.parser, Has(init, LENGTH_NAME), false, n, s.parser, s.parser) by { SameSelf(s.parser); }
      b := NextLine(s, h, n);
      FirstByte(h);
      SettledRun(a, HeaderText(h));
      ReadOn(m, HeadersText(init), a, HeaderText(h), b);
      Relength(m.parser, Has(init, LENGTH_NAME), h.0 == LENGTH_NAME, n, s.parser, Settle(b).parser);
      NamedValue(s.ctx, h.0, h.1);
    }
  }

  lemma NoHeaders()
    ensures !Has([], LENGTH_NAME)
  {
  }

  lemma SameSelf(p: Parser)
    ensures SameFraming(p, p)
  {
  }

  // ------------------------------------------------------------------ the end of the headers

  /** A request without transfer coding or upgrade, at the end of its headers. */
  predicate PlainRequest(p: Parser) {
    p.kind.Request? && !p.te && !p.flags.trailing && !p.flags.chunked && !p.flags.upgrade && !p.verb.CONNECT?
  }

  lemma EndCr(m: Machine)
    requires m.parser.st.FieldStart? && m.parser.nread < MAX_HEADER_SIZE
    ensures One(m, CR) == Done(On(m, 1, HeadersAlmostDone))
  {
  }

  lemma EndSwitch(p: Parser)
    requires p.st.HeadersAlmostDone? && PlainRequest(p)
    ensures var q := p.(nread := 0, upgrade := false);
      Switch(p, LF) ==
        if p.contentLength == 0 || p.contentLength == ULLONG_MAX then Go(NewMessage(q), [HeadersComplete, MessageComplete])
        else Go(q.(st := BodyIdentity), [HeadersComplete])
  {
    hide NewMessage;
    assert [HeadersComplete] + [MessageComplete] == [HeadersComplete, MessageComplete];
    var e: seq<Act> := [];
    assert [HeadersComplete] + e == [HeadersComplete];
  }

  lemma EndLf(m: Machine)
    requires m.parser.st.HeadersAlmostDone? && m.parser.nread < MAX_HEADER_SIZE && PlainRequest(m.parser)
    ensures var q := m.parser.(nread := 0, upgrade := false);
      One(m, LF) ==
        if m.parser.contentLength == 0 || m.parser.contentLength == ULLONG_MAX
        then Done(Machine(NewMessage(q), OnMessageComplete(OnHeadersComplete(m.ctx))))
        else Done(Machine(q.(st := BodyIdentity), OnHeadersComplete(m.ctx)))
  {
    hide Switch, NewMessage, OnMessageComplete, OnHeadersComplete;
    EndSwitch(Counted(m.parser));
    assert [HeadersComplete, MessageComplete][1..] == [MessageComplete] && [MessageComplete][1..] == [] && [HeadersComplete][1..] == [];
    assert Perform(OnHeadersComplete(m.ctx), None, [MessageComplete], LF) == OnMessageComplete(OnHeadersComplete(m.ctx));
    assert Counted(m.parser).(nread := 0, upgrade := false) == m.parser.(nread := 0, upgrade := false);
  }

  /** From the blank line to the end of the message, whose body is its Content-Length bytes or nothing. */
  lemma BodyRun(m: Machine, body: string)
    requires m.parser.st.FieldStart? && m.parser.nread + 2 <= MAX_HEADER_SIZE && PlainRequest(m.parser)
    requires if m.parser.contentLength == ULLONG_MAX then body == "" else m.parser.contentLength == |body|
    ensures var r := Run(m, CRLF + body);
      r.Done? && r.m.parser.verb == m.parser.verb && (r.m.parser.st.StartReq? || r.m.parser.st.Dead?) &&
      r.m.ctx == OnMessageComplete(OnHeadersComplete(m.ctx).(body := m.ctx.body + body))
  {
    hide One, Run, OnMessageComplete;
    EndCr(m);
    ReadOne(m, CR, On(m, 1, HeadersAlmostDone));
    var a := On(m, 1, HeadersAlmostDone);
    EndLf(a);
    assert [CR] + [LF] == CRLF;
    ReadChar(m, [CR], a, LF, CRLF, One(a, LF).m);
    RunJoin(m, CRLF, body);
    var b := One(a, LF).m;
    if body == "" {
      Empty(b);
      assert OnHeadersComplete(m.ctx).(body := m.ctx.body + body) == OnHeadersComplete(m.ctx);
    } else {
      IdentityBody(b, body);
    }
  }

  /** The consumer ends with the printed headers: in key order, equal keys in their order. */
  lemma {:induction false} HeadersKept(c: Ctx, hs: seq<Header>)
    requires Ready(c) && c.field == "" && c.headers == [] && Sorted(hs) && forall h | h in hs :: h.0 != ""
    ensures var a := AfterHeaders(c, hs);
      a.url == c.url && a.status == c.status && a.body == c.body && a.recv == c.recv && a.completions == c.completions &&
      (hs != [] ==> Ready(a) && (a.field, a.value) == hs[|hs| - 1] && a.headers == hs[..|hs| - 1])
  {
    hide Less;
    if hs != [] {
      var init, h := hs[..|hs| - 1], hs[|hs| - 1];
      HeadersKept(c, init);
      var a := AfterHeaders(c, init);
      assert h in hs && "" + h.0 == h.0;
      if init != [] {
        assert hs[|hs| - 2] == init[|init| - 1] && init == init[..|init| - 1] + [init[|init| - 1]];
        if init[..|init| - 1] != [] { LastNotLess(init); }
      }
    }
  }

  lemma LastNotLess(h: seq<Header>)
    requires Sorted(h) && |h| > 1
    ensures Insert(h[..|h| - 1], h[|h| - 1].0, h[|h| - 1].1) == h
  {
    assert h[..|h| - 1][|h| - 2] == h[|h| - 2] && h == h[..|h| - 1] + [h[|h| - 1]];
  }

  // ------------------------------------------------------------------ format

  predicate HasCrlf(s: string) { exists i | 0 <= i < |s| :: s[i] == CR || s[i] == LF }

  /** setHeader: silently ignored when it would break the line. */
  function SetHeader(h: seq<Header>, k: string, v: string): seq<Header> {
    if HasCrlf(k) || HasCrlf(v) then h else Insert(h, k, v)
  }

  function Default(h: seq<Header>, k: string, v: string): seq<Header> { if Has(h, k) then h else SetHeader(h, k, v) }

  /** Whether format writes a Content-Length of its own. */
  predicate Sized(v: Method, body: string) { v.POST? || body != "" }

  function WithBodyLength(v: Method, h: seq<Header>, body: string): seq<Header> {
    if Sized(v, body) then SetHeader(Erase(h, LENGTH_NAME), LENGTH_NAME, Decimal(|body|)) else h
  }

  /** The headers as format leaves them. */
  function Prepared(v: Method, h: seq<Header>, body: string): seq<Header> {
    var typed := if v.POST? then Default(h, "Content-Type", "text/plain") else h;
    Default(WithBodyLength(v, Default(typed, "Host", ""), body), "Connection", "close")
  }

  function Head(v: Method, url: string, h: seq<Header>): string { RequestLineText(v, url) + HeadersText(h) + CRLF }

  /** The loop of formatHeader. */
  method AppendLines(line: string, headers: seq<Header>) returns (text: string)
    ensures text == line + HeadersText(headers) + CRLF
  {
    text := line;
    var i := 0;
    while i < |headers|
      invariant i <= |headers| && text == line + HeadersText(headers[..i])
    {
      assert headers[..i + 1][..i] == headers[..i];
      ghost var before := text;
      text := text + headers[i].0;
      text := text + ": ";
      text := text + headers[i].1;
      text := text + CRLF;
      assert text == before + HeaderText(headers[i]);
      i := i + 1;
    }
    assert headers[..i] == headers;
    text := text + CRLF;
  }

  class HttpRequest {
    var verb: Method
    var url: string
    var headers: seq<Header>
    var body: string

    method SetDefault(k: string, v: string)
      modifies this`headers
      ensures headers == Default(old(headers), k, v)
    {
      if !Has(headers, k) { headers := SetHeader(headers, k, v); }
    }

    /** formatHeader: the header lines and the blank line, appended. */
    method FormatHeader(line: string) returns (req: string)
      modifies this`headers
      ensures headers == Default(old(headers), "Connection", "close") && req == line + HeadersText(headers) + CRLF
    {
      SetDefault("Connection", "close");
      req := AppendLines(line, headers);
    }

    method Format() returns (req: string)
      modifies this`headers
      ensures headers == Prepared(verb, old(headers), body) && req == Head(verb, url, headers) + body
    {
      hide Name, HeadersText;
      req := Name(verb);
      req := req + " ";
      req := req + url;
      req := req + " HTTP/1.1\r\n";
      assert req == RequestLineText(verb, url);
      if verb.POST? { SetDefault("Content-Type", "text/plain"); }
      SetDefault("Host", "");
      if verb.POST? || |body| > 0 {
        headers := Erase(headers, LENGTH_NAME);
        headers := SetHeader(headers, LENGTH_NAME, Decimal(|body|));
      }
      req := FormatHeader(req);
      req := req + body;
    }
  }

  // ------------------------------------------------------------------ the round trip

  function Count(h: seq<Header>, k: string): nat {
    if h == [] then 0 else Count(h[..|h| - 1], k) + if h[|h| - 1].0 == k then 1 else 0
  }

  lemma {:induction false} CountInsert(h: seq<Header>, k: string, v: string, x: string)
    ensures Count(Insert(h, k, v), x) == Count(h, x) + (if k == x then 1 else 0)
  {
    if h != [] && Less(k, h[|h| - 1].0) {
      var init := h[..|h| - 1];
      CountInsert(init, k, v, x);
      var s := Insert(init, k, v);
      assert (s + [h[|h| - 1]])[..|s|] == s;
    } else {
      assert (h + [(k, v)])[..|h|] == h;
    }
  }

  lemma {:induction false} CountHas(h: seq<Header>, k: string)
    ensures Has(h, k) <==> Count(h, k) > 0
  {
    if h != [] {
      HasGrows(h, k);
      CountHas(h[..|h| - 1], k);
    }
  }

  /** Every header fit to be printed in front of a body of n bytes. */
  predicate AllFit(h: seq<Header>, n: nat) {
    forall x | x in h :: if x.0 == LENGTH_NAME then x.1 == Decimal(n) else OrdinaryName(x.0) && PlainValue(x.1)
  }

  lemma {:induction false} FitsPrint(h: seq<Header>, n: nat)
    requires AllFit(h, n) && Count(h, LENGTH_NAME) <= 1
    ensures Printable(h, n)
  {
    if h != [] {
      var init := h[..|h| - 1];
      assert h[|h| - 1] in h && forall x | x in init :: x in h;
      FitsPrint(init, n);
      CountHas(init, LENGTH_NAME);
    }
  }

  /** A request whose parts can be told apart on the wire: a table method other than CONNECT and M-SEARCH, a URL the
      parser takes, ordinary headers, and Content-Length only where format overwrites it. */
  predicate WellFormed(v: Method, url: string, h: seq<Header>, body: string) {
    !v.CONNECT? && !v.MSEARCH? && UrlAccepted(url) && Sorted(h) && |body| <= MAX_LENGTH &&
    (forall x | x in h :: if x.0 == LENGTH_NAME then Sized(v, body) else OrdinaryName(x.0) && PlainValue(x.1))
  }

  lemma Constants()
    ensures OrdinaryName("Content-Type") && OrdinaryName("Host") && OrdinaryName("Connection")
    ensures PlainValue("text/plain") && PlainValue("") && PlainValue("close")
    ensures !HasCrlf("Content-Type") && !HasCrlf("Host") && !HasCrlf("Connection") && !HasCrlf(LENGTH_NAME)
    ensures !HasCrlf("text/plain") && !HasCrlf("") && !HasCrlf("close")
  {
    LowerAt("Content-Type", 8);
    LowerAt("Host", 0);
    LowerAt("Connection", 3);
  }

  lemma LowerAt(k: string, i: nat)
    requires i < |k|
    ensures LowerName(k)[i] == Token(k[i]) && |LowerName(k)| == |k|
  {
  }

  lemma {:induction false} DecimalIsPlain(n: nat)
    ensures PlainValue(Decimal(n)) && !HasCrlf(Decimal(n))
  {
    DigitValue(n % 10);
    if n >= 10 { DecimalIsPlain(n / 10); }
  }

  lemma InsertMembers(h: seq<Header>, k: string, v: string)
    ensures forall x :: x in Insert(h, k, v) <==> x in h || x == (k, v)
  {
    InsertAddsOne(h, k, v);
    forall x ensures x in Insert(h, k, v) <==> x in h || x == (k, v) {
      assert x in Insert(h, k, v) <==> x in multiset(Insert(h, k, v));
      assert x in h <==> x in multiset(h);
    }
  }

  predicate RestFits(h: seq<Header>) { forall x | x in h && x.0 != LENGTH_NAME :: OrdinaryName(x.0) && PlainValue(x.1) }

  lemma DefaultKeeps(h: seq<Header>, k: string, v: string)
    requires Sorted(h) && RestFits(h) && OrdinaryName(k) && PlainValue(v) && !HasCrlf(k) && !HasCrlf(v) && k != LENGTH_NAME
    ensures var r := Default(h, k, v);
      Sorted(r) && RestFits(r) && Count(r, LENGTH_NAME) == Count(h, LENGTH_NAME) &&
      (forall x | x in r && x.0 == LENGTH_NAME :: x in h) && (forall x | x in h :: x in r) && r != []
  {
    hide OrdinaryName, PlainValue, Less;
    InsertMembers(h, k, v);
    InsertKeepsOrder(h, k, v);
    CountInsert(h, k, v, LENGTH_NAME);
  }

  lemma LengthNameIsNot(k: string)
    requires OrdinaryName(k)
    ensures k != LENGTH_NAME
  {
    LengthNameLower();
  }

  lemma WithLengthFits(v: Method, h: seq<Header>, body: string)
    requires Sorted(h) && RestFits(h) && (!Sized(v, body) ==> Count(h, LENGTH_NAME) == 0)
    ensures var r := WithBodyLength(v, h, body);
      Sorted(r) && RestFits(r) && AllFit(r, |body|) && Count(r, LENGTH_NAME) == (if Sized(v, body) then 1 else 0)
  {
    hide OrdinaryName, PlainValue, Less, Decimal;
    Constants();
    DecimalIsPlain(|body|);
    CountHas(h, LENGTH_NAME);
    if Sized(v, body) {
      var e := Erase(h, LENGTH_NAME);
      EraseKeepsOrder(h, LENGTH_NAME);
      CountHas(e, LENGTH_NAME);
      forall x | x in e ensures x.0 != LENGTH_NAME { ErasedHasNone(e, LENGTH_NAME, x); }
      InsertMembers(e, LENGTH_NAME, Decimal(|body|));
      InsertKeepsOrder(e, LENGTH_NAME, Decimal(|body|));
      CountInsert(e, LENGTH_NAME, Decimal(|body|), LENGTH_NAME);
    } else {
      forall x | x in h ensures x.0 != LENGTH_NAME { ErasedHasNone(h, LENGTH_NAME, x); }
    }
  }

  lemma ErasedHasNone(e: seq<Header>, k: string, x: Header)
    requires !Has(e, k) && x in e
    ensures x.0 != k
  {
  }

  lemma WellFormedFits(v: Method, url: string, h: seq<Header>, body: string)
    requires WellFormed(v, url, h, body)
    ensures Sorted(h) && RestFits(h) && (!Sized(v, body) ==> Count(h, LENGTH_NAME) == 0)
  {
    hide OrdinaryName, PlainValue, UrlAccepted;
    CountHas(h, LENGTH_NAME);
    if Has(h, LENGTH_NAME) {
      var i :| 0 <= i < |h| && h[i].0 == LENGTH_NAME;
      assert h[i] in h;
    }
  }

  /** No name or value that would break its line. */
  predicate Unbroken(h: seq<Header>) { forall x | x in h :: Flat(x.0) && Flat(x.1) }

  predicate Flat(s: string) { forall i | 0 <= i < |s| :: s[i] != '\r' && s[i] != '\n' }

  lemma FlatIs(s: string)
    ensures HasCrlf(s) <==> !Flat(s)
  {
  }

  /** Whatever is set, format's own defaults included, no header breaks its line; what would is not set, and nothing else is. */
  lemma SetHeaderSafe(h: seq<Header>, k: string, v: string)
    ensures Unbroken(h) ==> Unbroken(SetHeader(h, k, v))
    ensures multiset(SetHeader(h, k, v)) == multiset(h) + (if Flat(k) && Flat(v) then multiset{(k, v)} else multiset{})
  {
    FlatIs(k);
    FlatIs(v);
    hide Insert, HasCrlf, Flat;
    InsertMembers(h, k, v);
    InsertAddsOne(h, k, v);
  }

  // ------------------------------------------------------------------ what format adds

  /** The pairs a printed request has under the key `x`. */
  function PrintedUnder(v: Method, h: seq<Header>, body: string, x: string): seq<Header> {
    if x == "Content-Length" && (v.POST? || body != "") then [("Content-Length", Decimal(|body|))]
    else if Only(h, x) != [] then Only(h, x)
    else if x == "Content-Type" && v.POST? then [("Content-Type", "text/plain")]
    else if x == "Host" then [("Host", "")]
    else if x == "Connection" then [("Connection", "close")]
    else []
  }

  lemma DefaultSays(h: seq<Header>, k: string, v: string, x: string)
    requires !HasCrlf(k) && !HasCrlf(v)
    ensures Only(Default(h, k, v), x) == if x == k && Only(h, k) == [] then [(k, v)] else Only(h, x)
  {
    hide Insert, Only, Has, HasCrlf;
    OnlyHas(h, k);
    InsertGoesLast(h, k, v, x);
    assert Only(h, k) == [] ==> Only(h, k) + [(k, v)] == [(k, v)];
    assert Only(h, x) + [] == Only(h, x);
  }

  lemma LengthSays(v: Method, h: seq<Header>, body: string, x: string)
    ensures Only(WithBodyLength(v, h, body), x) ==
      if x == LENGTH_NAME && Sized(v, body) then [(LENGTH_NAME, Decimal(|body|))] else Only(h, x)
  {
    hide Insert, Only, HasCrlf, Decimal, Erase;
    Constants();
    DecimalIsPlain(|body|);
    EraseLeaves(h, LENGTH_NAME, x);
    InsertGoesLast(Erase(h, LENGTH_NAME), LENGTH_NAME, Decimal(|body|), x);
    assert Only(h, x) + [] == Only(h, x);
    assert [] + [(LENGTH_NAME, Decimal(|body|))] == [(LENGTH_NAME, Decimal(|body|))];
  }

  lemma KeysDiffer()
    ensures "Content-Type" != "Host" && "Content-Type" != "Connection" && "Content-Type" != "Content-Length"
    ensures "Host" != "Connection" && "Host" != "Content-Length" && "Connection" != "Content-Length"
  {
    assert |"Content-Type"| == 12 && |"Host"| == 4 && |"Connection"| == 10 && |"Content-Length"| == 14;
  }

  /** What format prints under every key: its own length, the headers that were set, and a default where there was none. */
  lemma PreparedSays(v: Method, h: seq<Header>, body: string, x: string)
    ensures Only(Prepared(v, h, body), x) == PrintedUnder(v, h, body, x)
  {
    hide Only, Default, WithBodyLength, HasCrlf, Decimal;
    Constants();
    KeysDiffer();
    var typed := if v.POST? then Default(h, "Content-Type", "text/plain") else h;
    DefaultSays(h, "Content-Type", "text/plain", x);
    DefaultSays(typed, "Host", "", x);
    var hosted := Default(typed, "Host", "");
    LengthSays(v, hosted, body, x);
    DefaultSays(WithBodyLength(v, hosted, body), "Connection", "close", x);
  }

  function Hosted(v: Method, h: seq<Header>): seq<Header> {
    Default(if v.POST? then Default(h, "Content-Type", "text/plain") else h, "Host", "")
  }

  lemma HostedFits(v: Method, h: seq<Header>)
    requires Sorted(h) && RestFits(h)
    ensures Sorted(Hosted(v, h)) && RestFits(Hosted(v, h)) && Count(Hosted(v, h), LENGTH_NAME) == Count(h, LENGTH_NAME)
  {
    hide OrdinaryName, PlainValue, Default, Sorted, RestFits;
    Constants();
    LengthNameIsNot("Content-Type");
    LengthNameIsNot("Host");
    DefaultKeeps(h, "Content-Type", "text/plain");
    DefaultKeeps(if v.POST? then Default(h, "Content-Type", "text/plain") else h, "Host", "");
  }

  lemma ConnectedFits(h: seq<Header>, n: nat)
    requires Sorted(h) && RestFits(h) && AllFit(h, n) && Count(h, LENGTH_NAME) <= 1
    ensures var p := Default(h, "Connection", "close");
      Sorted(p) && p != [] && Printable(p, n) && (Has(p, LENGTH_NAME) <==> Count(h, LENGTH_NAME) == 1) && (forall x | x in p :: x.0 != "")
  {
    hide OrdinaryName, PlainValue, Default, Sorted, Decimal;
    Constants();
    LengthNameIsNot("Connection");
    DefaultKeeps(h, "Connection", "close");
    var p := Default(h, "Connection", "close");
    FitsPrint(p, n);
    CountHas(p, LENGTH_NAME);
    forall x | x in p ensures x.0 != "" { if x.0 != LENGTH_NAME { OrdinaryIsToken(x.0); } }
  }

  lemma PreparedFits(v: Method, url: string, h: seq<Header>, body: string)
    requires WellFormed(v, url, h, body)
    ensures var p := Prepared(v, h, body);
      Sorted(p) && p != [] && Printable(p, |body|) && (Has(p, LENGTH_NAME) <==> Sized(v, body)) && (forall x | x in p :: x.0 != "")
  {
    hide WellFormed, Default, Sorted, RestFits, AllFit, WithBodyLength, Sized;
    WellFormedFits(v, url, h, body);
    HostedFits(v, h);
    WithLengthFits(v, Hosted(v, h), body);
    ConnectedFits(WithBodyLength(v, Hosted(v, h), body), |body|);
  }

  /** From a parser ready for a request, printed headers and body are read to the end of the message. */
  lemma MessageRun(m: Machine, h: seq<Header>, body: string)
    requires m.parser.st.FieldStart? && m.parser.contentLength == ULLONG_MAX && !m.parser.flags.contentLength && PlainRequest(m.parser)
    requires Ready(m.ctx) && m.ctx.field == "" && m.ctx.headers == [] && m.ctx.body == ""
    requires Sorted(h) && h != [] && Printable(h, |body|) && (forall x | x in h :: x.0 != "") && |body| <= MAX_LENGTH
    requires body != "" ==> Has(h, LENGTH_NAME)
    requires m.parser.nread + |HeadersText(h)| + 2 <= MAX_HEADER_SIZE
    ensures var r := Run(m, HeadersText(h) + (CRLF + body));
      r.Done? && r.m.parser.verb == m.parser.verb && r.m.ctx.headers == h && r.m.ctx.body == body && r.m.ctx.url == m.ctx.url &&
      !r.m.ctx.recv && r.m.ctx.completions == m.ctx.completions + 1
  {
    hide Run, One, Printable, Sorted, Decimal, HeadersText, FinishHeader, Has;
    var b := LinesRun(m, h, |body|);
    var a := Settle(b);
    HeadersKept(m.ctx, h);
    RunJoin(m, HeadersText(h), CRLF + body);
    assert (CRLF + body)[0] == CR;
    SettledRun(b, CRLF + body);
    BodyRun(a, body);
    assert m.ctx.body + body == body;
    SortedAppends(h);
  }

  lemma SortedAppends(h: seq<Header>)
    requires Sorted(h) && h != []
    ensures Insert(h[..|h| - 1], h[|h| - 1].0, h[|h| - 1].1) == h
  {
    if |h| > 1 { LastNotLess(h); }
  }

  /** Parsing what format prints, with a fresh parser, gives back the method, the URL, the headers in order and the body,
      and completes once. The head must fit in max_header_size. */
  lemma RoundTrip(v: Method, url: string, h: seq<Header>, body: string)
    requires WellFormed(v, url, h, body) && |Head(v, url, Prepared(v, h, body))| <= MAX_HEADER_SIZE
    ensures var p := Prepared(v, h, body);
      var r := Run(Machine(Fresh(Request), NEW_CTX), Head(v, url, p) + body);
      r.Done? && r.m.parser.verb == v && r.m.ctx.url == url && r.m.ctx.headers == p && r.m.ctx.body == body &&
      !r.m.ctx.recv && r.m.ctx.completions == 1
  {
    hide Run, One, Prepared, Printable, Sorted, RequestLineText, HeadersText, UrlAccepted;
    var p := Prepared(v, h, body);
    PreparedFits(v, url, h, body);
    var m := Machine(Fresh(Request), NEW_CTX);
    var line := RequestLineText(v, url);
    RequestLineRun(m, v, url);
    RunJoin(m, line, HeadersText(p) + (CRLF + body));
    assert line + (HeadersText(p) + (CRLF + body)) == Head(v, url, p) + body;
    assert "" + url == url;
    MessageRun(Run(m, line).m, p, body);
  }
}
