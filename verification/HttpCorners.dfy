/** The rarer ways through the parser: messages of either kind, HTTP/0.9 and ICE lines, line ends before and behind messages, folded
    values, chunk extensions, and requests that leave for another protocol. */
module HttpCorners {
  import opened HttpAutomaton
  import opened HttpHeaders
  import opened HttpConsumer
  import opened HttpMarks
  import opened HttpBytes
  import opened HttpBodies
  import opened HttpFraming
  import opened HttpRequestLine
  import opened HttpHeaderLines
  import opened HttpListValues
  import opened HttpRoundTrip
  import opened HttpTransfer
  import opened HttpResponses

  // ------------------------------------------------------------------ a parser for either kind

  function Kinded(kind: Kind): Machine { Machine(Fresh(kind), NEW_CTX) }

  lemma OtherLetter(c: char)
    requires c != CR && c != LF && c != 'H'
    ensures One(Kinded(Both), c) == One(Kinded(Request), c)
  {
    hide FirstMethod;
    var p := Counted(Fresh(Request));
    assert Clean(Clean(Counted(Fresh(Both))).(kind := Request, st := StartReq)) == Clean(p);
  }

  /** A byte without acts or marks. */
  lemma Quietly(m: Machine, b: char)
    requires ParsingHeader(m.parser.st) && m.parser.nread < MAX_HEADER_SIZE && MarkAt(m.parser.st).None?
    ensures var o := Switch(Counted(m.parser), b);
      (o.Fail? ==> One(m, b).Failed?) && (o.Go? && o.acts == [] ==> One(m, b) == Done(Machine(o.parser, m.ctx)))
  {
    hide Switch;
  }

  /** Parsers behind the letter H. */
  function EitherH(): Parser { Clean(Fresh(Both)).(nread := 1, st := ResOrRespH) }

  function RequestH(): Parser { Clean(Fresh(Request)).(nread := 1, verb := HEAD, index := 1, st := ReqMethod) }

  function ResponseH(): Parser { Clean(Fresh(Response)).(nread := 1, st := ResH) }

  lemma EitherLetterH()
    ensures One(Kinded(Both), 'H') == Done(Machine(EitherH(), NEW_CTX))
  {
    Quietly(Kinded(Both), 'H');
    hide One;
  }

  lemma RequestLetterH()
    ensures One(Kinded(Request), 'H') == Done(Machine(RequestH(), NEW_CTX))
  {
    Quietly(Kinded(Request), 'H');
    hide One;
  }

  lemma ResponseLetterH()
    ensures One(Kinded(Response), 'H') == Done(Machine(ResponseH(), NEW_CTX))
  {
    Quietly(Kinded(Response), 'H');
    hide One;
  }

  lemma SecondLetter(c: char)
    ensures One(Machine(EitherH(), NEW_CTX), c) ==
      if c == 'T' then One(Machine(ResponseH(), NEW_CTX), c) else One(Machine(RequestH(), NEW_CTX), c)
  {
    HReady();
    Quietly(Machine(EitherH(), NEW_CTX), c);
    Quietly(Machine(ResponseH(), NEW_CTX), c);
    Quietly(Machine(RequestH(), NEW_CTX), c);
    hide One;
    EitherSwitch(Counted(EitherH()), c);
    HeadSwitch(Counted(RequestH()), c);
    TSwitch(Counted(ResponseH()), c);
    hide Switch;
    Alike();
  }

  lemma HReady()
    ensures ParsingHeader(ResOrRespH) && ParsingHeader(ReqMethod) && ParsingHeader(ResH)
    ensures Counted(EitherH()) == EitherH().(nread := 2) && Counted(RequestH()) == RequestH().(nread := 2) && Counted(ResponseH()) == ResponseH().(nread := 2)
  {
  }

  lemma Alike()
    ensures EitherH().(kind := Response, st := ResHT) == ResponseH().(st := ResHT)
    ensures EitherH().(kind := Request, verb := HEAD, index := 2, st := ReqMethod) == RequestH().(index := 2)
  {
  }

  lemma TSwitch(p: Parser, c: char)
    requires p.st.ResH?
    ensures Switch(p, c) == if c == 'T' then Go(p.(st := ResHT), []) else Fail(Strict)
  {
  }

  lemma EitherSwitch(p: Parser, c: char)
    requires p.st.ResOrRespH?
    ensures Switch(p, c) ==
      if c == 'T' then Go(p.(kind := Response, st := ResHT), [])
      else if c == 'E' then Go(p.(kind := Request, verb := HEAD, index := 2, st := ReqMethod), [])
      else Fail(InvalidConstant)
  {
  }

  lemma HeadSwitch(p: Parser, c: char)
    requires p.st.ReqMethod? && p.verb.HEAD? && p.index == 1
    ensures Switch(p, c) == if c == 'E' then Go(p.(index := 2), []) else Fail(InvalidMethod)
  {
  }

  /** A parser for either kind reads every message as the parser for its kind would: as a response if it begins with "HT", and
      else as a request. */
  lemma KindDetected(s: string)
    requires |s| >= 2 && s[0] != CR && s[0] != LF
    ensures Run(Kinded(Both), s) == if s[..2] == "HT" then Run(Kinded(Response), s) else Run(Kinded(Request), s)
  {
    hide One, Run, Kinded;
    assert s == [s[0]] + s[1..] && s == [s[0], s[1]] + s[2..] && s[..2] == [s[0], s[1]];
    if s[0] == 'H' {
      EitherLetterH();
      RequestLetterH();
      ResponseLetterH();
      SecondLetter(s[1]);
      hide EitherH, RequestH, ResponseH;
      Pair(Kinded(Both), 'H', s[1]);
      Pair(Kinded(Request), 'H', s[1]);
      Pair(Kinded(Response), 'H', s[1]);
      RunJoin(Kinded(Both), ['H', s[1]], s[2..]);
      RunJoin(Kinded(Request), ['H', s[1]], s[2..]);
      RunJoin(Kinded(Response), ['H', s[1]], s[2..]);
      assert s[1] == 'T' ==> s[..2] == "HT";
    } else {
      OtherLetter(s[0]);
      Alone(Kinded(Both), s[0]);
      Alone(Kinded(Request), s[0]);
      RunJoin(Kinded(Both), [s[0]], s[1..]);
      RunJoin(Kinded(Request), [s[0]], s[1..]);
      assert s[..2] != "HT" by { assert s[..2][0] == s[0]; }
    }
  }

  lemma Alone(m: Machine, b: char)
    ensures Run(m, [b]) == One(m, b)
  {
    hide One;
    Empty(m);
    assert [b][..0] == "" && Run(m, [b]) == match One(m, b) case Left(x, _) => Left(x, 1) case other => other;
    LeftAfterOne(m, b);
  }

  lemma LeftAfterOne(m: Machine, b: char)
    ensures One(m, b).Left? ==> One(m, b).n == 1
  {
    hide Advance, Perform;
  }

  // ------------------------------------------------------------------ line ends outside of messages

  predicate LineEnds(s: string) { forall i | 0 <= i < |s| :: s[i] == CR || s[i] == LF }

  lemma DeadByte(m: Machine, c: char)
    requires m.parser.st.Dead? && m.parser.nread < MAX_HEADER_SIZE
    ensures One(m, c) == if c == CR || c == LF then Done(On(m, 1, Dead)) else Failed
  {
  }

  lemma StartByteSkips(m: Machine, c: char)
    requires (m.parser.st.StartReq? || m.parser.st.StartRes? || m.parser.st.StartReqOrRes?) && m.parser.nread < MAX_HEADER_SIZE && (c == CR || c == LF)
    ensures One(m, c) == Done(On(m, 1, m.parser.st))
  {
  }

  /** Behind the last message of a connection nothing but line ends is taken. */
  lemma {:induction false} DeadTakesLineEnds(m: Machine, s: string)
    requires m.parser.st.Dead? && m.parser.nread + |s| <= MAX_HEADER_SIZE
    ensures if LineEnds(s) then Run(m, s) == Done(On(m, |s|, Dead)) else Run(m, s).Failed?
  {
    hide One;
    if s == "" {
      assert On(m, 0, Dead) == m;
    } else {
      var init, c := s[..|s| - 1], s[|s| - 1];
      assert s == init + [c];
      DeadTakesLineEnds(m, init);
      if LineEnds(init) { DeadByte(On(m, |init|, Dead), c); }
    }
  }

  /** Before a message line ends are skipped. */
  lemma {:induction false} StartSkipsLineEnds(m: Machine, s: string)
    requires (m.parser.st.StartReq? || m.parser.st.StartRes? || m.parser.st.StartReqOrRes?) && m.parser.nread + |s| <= MAX_HEADER_SIZE && LineEnds(s)
    ensures Run(m, s) == Done(On(m, |s|, m.parser.st))
  {
    hide One;
    if s == "" {
      assert On(m, 0, m.parser.st) == m;
    } else {
      var init, c := s[..|s| - 1], s[|s| - 1];
      assert s == init + [c];
      StartSkipsLineEnds(m, init);
      StartByteSkips(On(m, |init|, m.parser.st), c);
    }
  }

  // ------------------------------------------------------------------ other request lines

  /** A request line without a version is one of HTTP/0.9. */
  lemma SimpleLineEnds(m: Machine)
    requires InUrl(m.parser.st) && m.parser.nread + 2 <= MAX_HEADER_SIZE
    requires !m.parser.st.ReqSchema? && !m.parser.st.ReqSchemaSlash? && !m.parser.st.ReqSchemaSlashSlash? && !m.parser.st.ReqServerStart?
    ensures Reads(m, CRLF, Machine(m.parser.(nread := m.parser.nread + 2, major := 0, minor := 9, st := FieldStart), m.ctx))
  {
    hide One, Run, InUrl;
    UrlCr(m);
    var a := Machine(m.parser.(nread := m.parser.nread + 1, major := 0, minor := 9, st := ReqLineAlmostDone), m.ctx);
    ReadOne(m, CR, a);
    ExpectedByte(a, LF);
    assert [CR] + [LF] == CRLF;
    ReadChar(m, [CR], a, LF, CRLF, On(a, 1, FieldStart));
  }

  lemma UrlCr(m: Machine)
    requires InUrl(m.parser.st) && m.parser.nread < MAX_HEADER_SIZE
    requires !m.parser.st.ReqSchema? && !m.parser.st.ReqSchemaSlash? && !m.parser.st.ReqSchemaSlashSlash? && !m.parser.st.ReqServerStart?
    ensures One(m, CR) == Done(Machine(m.parser.(nread := m.parser.nread + 1, major := 0, minor := 9, st := ReqLineAlmostDone), m.ctx))
  {
    hide Switch, InUrl;
    UrlCounts(m.parser);
    CrSwitch(m.parser.(nread := m.parser.nread + 1));
    assert [Flush(Url)][1..] == [];
    assert m.ctx.url + "" == m.ctx.url;
  }

  lemma CrSwitch(p: Parser)
    requires InUrl(p.st) && !p.st.ReqSchema? && !p.st.ReqSchemaSlash? && !p.st.ReqSchemaSlashSlash? && !p.st.ReqServerStart?
    ensures Switch(p, CR) == Go(p.(major := 0, minor := 9, st := ReqLineAlmostDone), [Flush(Url)])
  {
    hide ParseUrlChar;
  }

  lemma IceStarts(m: Machine)
    requires m.parser.st.ReqHttpStart? && m.parser.nread < MAX_HEADER_SIZE
    ensures One(m, 'I') == if m.parser.verb.SOURCE? then Done(On(m, 1, ReqI)) else Failed
  {
  }

  lemma IceReads(m: Machine)
    requires m.parser.st.ReqHttpStart? && m.parser.verb.SOURCE? && m.parser.nread + 4 <= MAX_HEADER_SIZE
    ensures Reads(m, "ICE/", On(m, 4, ReqMajor))
  {
    hide One, Run, On, Expected, Reads;
    IceStarts(m);
    IceFixed();
    OnIs(m, 1, ReqI);
    ReadOne(m, 'I', On(m, 1, ReqI));
    assert "I" == ['I'] && "I" + ['C'] == "IC" && "IC" + ['E'] == "ICE" && "ICE" + ['/'] == "ICE/";
    ReadFixed(m, "I", 1, ReqI, 'C', ReqIC);
    ReadFixed(m, "IC", 2, ReqIC, 'E', ReqHTTP);
    ReadFixed(m, "ICE", 3, ReqHTTP, '/', ReqMajor);
  }

  /** The protocol of a SOURCE request may be named ICE; that of no other may. */
  lemma IceLine(m: Machine)
    requires m.parser.st.ReqHttpStart? && m.parser.nread + 4 <= MAX_HEADER_SIZE
    ensures if m.parser.verb.SOURCE? then Run(m, "ICE/") == Done(On(m, 4, ReqMajor)) else Run(m, "ICE/").Failed?
  {
    hide One, Run, On;
    if m.parser.verb.SOURCE? {
      IceReads(m);
      ReadsRun(m, "ICE/", On(m, 4, ReqMajor));
    } else {
      IceStarts(m);
      assert "ICE/" == ['I'] + "CE/";
      Alone(m, 'I');
      RunJoin(m, ['I'], "CE/");
    }
  }

  lemma IceFixed()
    ensures Fixed(ReqI, 'C', ReqIC) && Fixed(ReqIC, 'E', ReqHTTP) && Fixed(ReqHTTP, '/', ReqMajor)
  {
  }

  // ------------------------------------------------------------------ folded values, bare line ends, chunk extensions

  lemma FoldStarts(m: Machine, c: char)
    requires m.parser.st.ValueLws? && m.parser.hs.General? && (c == ' ' || c == TAB) && m.parser.nread < MAX_HEADER_SIZE
    ensures One(m, c) == Done(Machine(m.parser.(nread := m.parser.nread + 1, index := 0, st := Value), Deliver(m.ctx, ValueData, [c])))
  {
    hide Deliver;
    assert [Mark(ValueData)][1..] == [];
  }

  /** A line that begins with a blank goes on with the value of the one before it, blank included. */
  lemma FoldedLine(m: Machine, c: char, v: string)
    requires m.parser.st.ValueLws? && m.parser.hs.General? && (c == ' ' || c == TAB) && PlainBytes(v)
    requires m.parser.nread + |v| + 3 <= MAX_HEADER_SIZE
    ensures Reads(m, [c] + v + CRLF, Machine(m.parser.(nread := m.parser.nread + |v| + 3, index := 0, st := ValueLws), Deliver(m.ctx, ValueData, [c] + v)))
  {
    hide One, Run, Deliver, IsHeaderChar, MatchValue;
    FoldStarts(m, c);
    var a := Machine(m.parser.(nread := m.parser.nread + 1, index := 0, st := Value), Deliver(m.ctx, ValueData, [c]));
    ReadOne(m, c, a);
    GeneralFold(a.parser, v);
    FoldRuns(a, v);
    DeliverJoin(m.ctx, ValueData, [c], v);
    assert [c] + "" == [c];
    var b := Machine(a.parser.(nread := a.parser.nread + |v|), Deliver(m.ctx, ValueData, [c] + v));
    ReadsIs(a, v, b);
    ReadOn(m, [c], a, v, b);
    ValueLineEnds(b);
    DeliverJoin(m.ctx, ValueData, [c] + v, "");
    assert [c] + v + "" == [c] + v;
    ReadOn(m, [c] + v, b, CRLF, Machine(b.parser.(nread := b.parser.nread + 2, st := ValueLws), Deliver(b.ctx, ValueData, "")));
  }

  /** A value may be ended by a line feed alone, to the same effect. */
  lemma BareLineEnd(m: Machine)
    requires m.parser.st.Value? && m.parser.nread + 2 <= MAX_HEADER_SIZE
    ensures Reads(m, [LF], Machine(m.parser.(nread := m.parser.nread + 1, st := ValueLws), Deliver(m.ctx, ValueData, "")))
    ensures Reads(m, CRLF, Machine(m.parser.(nread := m.parser.nread + 2, st := ValueLws), Deliver(m.ctx, ValueData, "")))
  {
    hide One, Run, Deliver;
    ValueLf(m);
    ReadOne(m, LF, One(m, LF).m);
    ValueLineEnds(m);
  }

  lemma ValueLf(m: Machine)
    requires m.parser.st.Value? && m.parser.nread < MAX_HEADER_SIZE
    ensures One(m, LF) == Done(Machine(m.parser.(nread := m.parser.nread + 1, st := ValueLws), Deliver(m.ctx, ValueData, "")))
  {
    hide Advance, Deliver;
    ValueEnds(m.parser, LF);
    assert [Flush(ValueData)][1..] == [];
  }

  lemma ExtensionStarts(m: Machine)
    requires m.parser.st.ChunkSize? && m.parser.nread < MAX_HEADER_SIZE
    ensures One(m, ';') == Done(On(m, 1, ChunkParameters))
  {
  }

  lemma ExtensionByte(m: Machine, c: char)
    requires m.parser.st.ChunkParameters? && m.parser.nread < MAX_HEADER_SIZE
    ensures One(m, c) == Done(On(m, 1, if c == CR then ChunkSizeAlmostDone else ChunkParameters))
  {
  }

  lemma {:induction false} ExtensionBytes(m: Machine, s: string)
    requires m.parser.st.ChunkParameters? && CR !in s && m.parser.nread + |s| <= MAX_HEADER_SIZE
    ensures Reads(m, s, On(m, |s|, ChunkParameters))
  {
    hide One, Run, Reads;
    if s == "" {
      Nothing(m);
    } else {
      var init, c := s[..|s| - 1], s[|s| - 1];
      assert s == init + [c];
      ExtensionBytes(m, init);
      ExtensionByte(On(m, |init|, ChunkParameters), c);
      ReadChar(m, init, On(m, |init|, ChunkParameters), c, s, On(m, |s|, ChunkParameters));
    }
  }

  /** What stands behind a chunk size and a semicolon makes no difference, but for the count of bytes. */
  lemma ExtensionIgnored(m: Machine, s: string)
    requires m.parser.st.ChunkSize? && CR !in s && m.parser.nread + |s| + 3 <= MAX_HEADER_SIZE
    ensures Run(m, ";" + s + CRLF) == Run(m, CRLF)
  {
    hide One, Run, Reads;
    ExtensionStarts(m);
    var a := On(m, 1, ChunkParameters);
    ReadOne(m, ';', a);
    ExtensionBytes(a, s);
    var b := On(a, |s|, ChunkParameters);
    ReadOn(m, ";", a, s, b);
    ExtensionByte(b, CR);
    var c := On(b, 1, ChunkSizeAlmostDone);
    ReadChar(m, ";" + s, b, CR, ";" + s + [CR], c);
    SizeLf(c);
    ReadsRun(m, ";" + s + [CR], c);
    RunOne(m, ";" + s + [CR], LF);
    assert ";" + s + [CR] + [LF] == ";" + s + CRLF;
    SizeLine(m);
  }

  // ------------------------------------------------------------------ strictness

  /** In an ordinary value, control bytes other than the tab are refused, unless the parser is set to be lenient. */
  lemma ValueBytes(m: Machine, c: char)
    requires m.parser.st.Value? && m.parser.hs.General? && c != CR && c != LF && m.parser.nread < MAX_HEADER_SIZE
    ensures One(m, c).Done? <==> m.parser.lenient || c == TAB || (c as int >= 32 && c as int != 127)
    ensures One(m, c).Done? ==> One(m, c).m.ctx == Deliver(m.ctx, ValueData, [c])
  {
    hide Advance, Deliver;
    OneValue(m, c);
    GeneralByte(Counted(m.parser), c);
  }

  lemma GeneralByte(p: Parser, c: char)
    requires p.hs.General? && c != CR && c != LF
    ensures OnValue(p, c).Fail? <==> !(p.lenient || c == TAB || (c as int >= 32 && c as int != 127))
  {
  }

  /** What the empty line of a request decides where the parser is lenient: a coding beside a length is taken if it is not
      "chunked", and a coding that is not "chunked" makes the body last to the end of the connection. */
  lemma LenientDecides(p: Parser)
    requires p.st.HeadersAlmostDone? && p.kind.Request? && p.lenient && !p.verb.CONNECT? && !p.flags.trailing
    requires !(p.flags.upgrade && p.flags.connUpgrade)
    ensures var q := p.(nread := 0, upgrade := false);
      Switch(p, LF) ==
        if p.te && p.flags.contentLength && p.flags.chunked then Fail(UnexpectedContentLength)
        else if p.flags.chunked then Go(q.(st := ChunkSizeStart), [HeadersComplete])
        else if p.te then Go(q.(st := BodyIdentityEof), [HeadersComplete])
        else if p.contentLength == 0 || p.contentLength == ULLONG_MAX then Go(NewMessage(q), [HeadersComplete, MessageComplete])
        else Go(q.(st := BodyIdentity), [HeadersComplete])
  {
    hide NewMessage;
    assert [HeadersComplete] + [MessageComplete] == [HeadersComplete, MessageComplete] && [HeadersComplete] + [] == [HeadersComplete];
  }

  // ------------------------------------------------------------------ requests that leave

  /** A request that asks for another protocol, with an Upgrade line and the option "upgrade". */
  predicate Leaves(p: Parser) {
    p.kind.Request? && !p.lenient && !p.verb.CONNECT? && !p.flags.trailing && p.flags.upgrade && p.flags.connUpgrade
    && !p.te && !p.flags.chunked
  }

  lemma LeaveDecides(p: Parser)
    requires p.st.HeadersAlmostDone? && Leaves(p)
    ensures var q := p.(nread := 0, upgrade := true);
      Switch(p, LF) ==
        if p.contentLength == 0 || p.contentLength == ULLONG_MAX then Leave(NewMessage(q), [HeadersComplete, MessageComplete])
        else Go(q.(st := BodyIdentity), [HeadersComplete])
  {
    hide NewMessage;
    assert [HeadersComplete] + [MessageComplete] == [HeadersComplete, MessageComplete] && [HeadersComplete] + [] == [HeadersComplete];
  }

  lemma LeaveByLf(m: Machine)
    requires m.parser.st.HeadersAlmostDone? && m.parser.nread < MAX_HEADER_SIZE && Leaves(m.parser)
    ensures var q, c := m.parser.(nread := 0, upgrade := true), OnHeadersComplete(m.ctx);
      One(m, LF) ==
        if m.parser.contentLength == 0 || m.parser.contentLength == ULLONG_MAX then Left(Machine(NewMessage(q), OnMessageComplete(c)), 1)
        else Done(Machine(q.(st := BodyIdentity), c))
  {
    hide Switch, NewMessage, OnMessageComplete, OnHeadersComplete;
    LeaveDecides(Counted(m.parser));
    assert [HeadersComplete, MessageComplete][1..] == [MessageComplete] && [MessageComplete][1..] == [] && [HeadersComplete][1..] == [];
    assert Perform(OnHeadersComplete(m.ctx), None, [MessageComplete], LF) == OnMessageComplete(OnHeadersComplete(m.ctx));
    assert Counted(m.parser).(nread := 0, upgrade := true) == m.parser.(nread := 0, upgrade := true);
  }

  lemma UpgradedLast(m: Machine, b: char)
    requires m.parser.st.BodyIdentity? && m.parser.contentLength == 1 && m.parser.upgrade
    ensures One(m, b) == Left(Machine(NewMessage(m.parser.(contentLength := 0, st := MessageDone)),
                                      OnMessageComplete(m.ctx.(body := m.ctx.body + [b]))), 1)
  {
    hide Advance, NewMessage;
    UpgradedEnds(m.parser, b);
    var acts: seq<Act> := [Mark(Body), FlushThis(Body), MessageComplete];
    assert acts[1..] == [FlushThis(Body), MessageComplete] && acts[1..][1..] == [MessageComplete] && acts[1..][1..][1..] == [];
    var c := Deliver(m.ctx, Body, [b]);
    assert Perform(c, None, [MessageComplete], b) == OnMessageComplete(c);
    assert Perform(m.ctx, Some(Body), acts[1..], b) == Perform(c, None, acts[1..][1..], b);
  }

  lemma UpgradedEnds(p: Parser, b: char)
    requires p.st.BodyIdentity? && p.contentLength == 1 && p.upgrade
    ensures Advance(p, b) == Leave(NewMessage(p.(contentLength := 0, st := MessageDone)), [Mark(Body), FlushThis(Body), MessageComplete])
  {
    hide NewMessage;
    assert [Mark(Body), FlushThis(Body)] + [MessageComplete] == [Mark(Body), FlushThis(Body), MessageComplete];
  }

  lemma UpgradedBody(m: Machine, s: string)
    requires m.parser.st.BodyIdentity? && |s| == m.parser.contentLength > 0 && m.parser.upgrade
    ensures Run(m, s) == Left(Machine(NewMessage(m.parser.(contentLength := 0, st := MessageDone)),
                                      OnMessageComplete(m.ctx.(body := m.ctx.body + s))), |s|)
  {
    hide One, NewMessage;
    var init := s[..|s| - 1];
    IdentityBulk(m, init);
    UpgradedLast(Run(m, init).m, s[|s| - 1]);
    assert (m.ctx.body + init) + [s[|s| - 1]] == m.ctx.body + s;
  }

  /** A request that asks for another protocol leaves the parser behind its last byte, whatever follows it, with everything in it
      delivered and completed once. */
  lemma UpgradedRequest(top: Top, ls: seq<Line>, body: string, rest: string)
    requires Sendable(top, ls) && !NoUpgrade(Effects(NOTHING, ls)) && !Effects(NOTHING, ls).te && !Effects(NOTHING, ls).flags.chunked
    requires |body| == if Effects(NOTHING, ls).length == ULLONG_MAX then 0 else Effects(NOTHING, ls).length
    ensures var text := HeadText(top, ls) + body; var r := Run(Machine(Fresh(Request), NEW_CTX), text + rest);
      r.Left? && r.n == |text| && r.m.parser.verb == top.verb && r.m.ctx.url == top.url && r.m.ctx.headers == Collected(HeadersOf(ls))
      && r.m.ctx.body == body && !r.m.ctx.recv && r.m.ctx.completions == 1
  {
    hide One, Run, Sendable, HeadText, Effects, Collected, HeadersOf, HeadersText, TopText, Insert;
    assert LinesOk(ls) && ls != [] && TopOk(top) && !top.verb.CONNECT? by { SendableLines(top, ls); }
    var b, p, c := LeavingHead(top, ls);
    var start := Machine(Fresh(Request), NEW_CTX);
    var lines := TopText(top) + HeadersText(HeadersOf(ls));
    assert HeadText(top, ls) == lines + CRLF by { HeadSplits(top, ls); }
    LeavingEnd(Machine(p, c), body);
    SettledRun(b, CRLF + body);
    ReadsRun(start, lines, b);
    RunJoin(start, lines, CRLF + body);
    assert lines + (CRLF + body) == HeadText(top, ls) + body;
    RunJoin(start, HeadText(top, ls) + body, rest);
  }

  lemma HeadSplits(top: Top, ls: seq<Line>)
    requires TopOk(top) && LinesOk(ls)
    ensures HeadText(top, ls) == TopText(top) + HeadersText(HeadersOf(ls)) + CRLF
  {
    hide TopText, HeadersText;
  }

  /** The head up to its empty line. */
  lemma LeavingHead(top: Top, ls: seq<Line>) returns (b: Machine, p: Parser, c: Ctx)
    requires Sendable(top, ls)
    ensures AtHeadEnd(p, c, top, ls) && Settle(b) == Machine(p, c) && p.nread + 2 <= MAX_HEADER_SIZE
    ensures b.parser.st.DiscardLws? ==> !b.parser.hs.ContentLength?
    ensures Reads(Machine(Fresh(Request), NEW_CTX), TopText(top) + HeadersText(HeadersOf(ls)), b)
  {
    hide One, Run, TopOk, TopText, HeadersText, HeadersOf, LineOk, Reads, BlockRuns, FramingOf;
    var m := Machine(Fresh(Request), NEW_CTX);
    var line, hs := TopText(top), HeadersOf(ls);
    TopRun(m, top);
    var a := Machine(Clean(m.parser).(verb := top.verb, index := |Name(top.verb)| + 1, major := top.major, minor := top.minor, st := FieldStart, nread := |line|),
                     m.ctx.(url := top.url));
    assert "" + top.url == top.url;
    FreshIsNothing(a.parser);
    b := BlockRun(a, ls);
    p, c := Settle(b).parser, Settle(b).ctx;
    BlockTells(a, b, ls);
    EffectsKeepTrailing(NOTHING, ls);
    FirstsNonempty(ls);
    HeadersCollected(a.ctx, hs);
    ReadOn(m, line, a, HeadersText(hs), b);
  }

  lemma LeavingEnd(m: Machine, body: string)
    requires m.parser.st.FieldStart? && m.parser.nread + 2 <= MAX_HEADER_SIZE && Leaves(m.parser) && m.ctx.body == ""
    requires |body| == if m.parser.contentLength == ULLONG_MAX then 0 else m.parser.contentLength
    ensures var r := Run(m, CRLF + body);
      r.Left? && r.n == 2 + |body| && r.m.ctx == OnMessageComplete(OnHeadersComplete(m.ctx).(body := body)) && r.m.parser.verb == m.parser.verb
  {
    hide One, Run, Insert, Leaves;
    EndCr(m);
    var a := On(m, 1, HeadersAlmostDone);
    ReadOne(m, CR, a);
    LeavesAs(m.parser, a.parser);
    LeaveByLf(a);
    assert [CR] + [LF] == CRLF;
    ReadsRun(m, [CR], a);
    RunOne(m, [CR], LF);
    RunJoin(m, CRLF, body);
    if body == "" {
      assert CRLF + body == CRLF;
    } else {
      UpgradedBody(One(a, LF).m, body);
      assert "" + body == body;
    }
  }

  lemma LeavesAs(p: Parser, q: Parser)
    requires Leaves(p) && q == p.(nread := q.nread, st := q.st)
    ensures Leaves(q)
  {
  }
}
