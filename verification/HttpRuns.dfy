/** Runs of the parser over bytes: what every reachable state satisfies, and what the consumer is handed. */
module HttpRuns {
  import opened HttpAutomaton
  import opened HttpHeaders

  // ------------------------------------------------------------------ reachable parser states

  predicate NameState(hs: HeaderState) {
    hs.General? || hs.C? || hs.CO? || hs.CON? || hs.MatchingConnection? || hs.MatchingProxyConnection? ||
    hs.MatchingContentLength? || hs.MatchingTransferEncoding? || hs.MatchingUpgrade? || hs.Connection? ||
    hs.ContentLength? || hs.TransferEncoding? || hs.Upgrade?
  }

  /** Inside a match the index stays below the word's length, at most 17: five bits are enough. */
  function WordSize(hs: HeaderState): (r: nat)
    ensures r == |Word(hs)|
  {
    match hs
    case MatchingConnection => 10
    case MatchingProxyConnection => 16
    case MatchingContentLength => 14
    case MatchingTransferEncoding => 17
    case MatchingUpgrade => 7
    case MatchingChunked => 7
    case MatchingKeepAlive => 10
    case MatchingClose => 5
    case MatchingConnUpgrade => 7
    case _ => 0
  }

  predicate IndexOk(p: Parser) {
    (p.st.Field? && MatchesName(p.hs) ==> p.index + 1 < WordSize(p.hs)) &&
    (p.st.Value? && MatchesToken(p.hs) ==> p.index + 1 < WordSize(p.hs)) &&
    (p.st.Value? && (p.hs.TokenStartTE? || p.hs.TokenStartConn?) ==> p.index == 0) &&
    (p.hs.C? && p.st.Field? ==> p.index == 0) && (p.hs.CO? && p.st.Field? ==> p.index == 1) &&
    (p.hs.CON? && p.st.Field? ==> p.index == 2) &&
    (p.st.ReqMethod? ==> p.index <= |Name(p.verb)|)
  }

  predicate BodyOk(p: Parser) {
    (p.flags.trailing ==> p.flags.chunked) &&
    (p.st.ChunkSizeStart? ==> p.flags.chunked && p.nread == 0) &&
    (p.st.ChunkSize? || p.st.ChunkParameters? || p.st.ChunkSizeAlmostDone? || p.st.ChunkDataDone? ==>
       p.flags.chunked && p.contentLength < ULLONG_MAX) &&
    (p.st.ChunkData? ==> p.flags.chunked && 0 < p.contentLength < ULLONG_MAX) &&
    (p.st.ChunkDataAlmostDone? ==> p.flags.chunked && p.contentLength == 0) &&
    (p.st.BodyIdentity? ==> 0 < p.contentLength < ULLONG_MAX) &&
    !p.st.MessageDone? && !p.st.HeadersDone?
  }

  /** What holds between any two bytes. */
  predicate Reachable(p: Parser) {
    p.nread <= MAX_HEADER_SIZE && p.index < 32 && p.status <= 999 && p.contentLength <= ULLONG_MAX &&
    (p.st.Field? ==> NameState(p.hs)) &&
    (p.st.Value? ==> !p.hs.Connection? && !p.hs.TransferEncoding?) &&
    IndexOk(p) && BodyOk(p)
  }

  predicate Sound(o: Outcome) {
    match o
    case Go(p, _) => Reachable(p)
    case Leave(p, _) => Reachable(p)
    case Fail(_) => true
  }

  /** States about which Reachable says nothing of their own. */
  predicate Plain(st: State) {
    !st.ReqMethod? && !st.Field? && !st.Value? && !st.ChunkSizeStart? && !st.ChunkSize? && !st.ChunkParameters? &&
    !st.ChunkSizeAlmostDone? && !st.ChunkData? && !st.ChunkDataAlmostDone? && !st.ChunkDataDone? && !st.BodyIdentity? &&
    !st.MessageDone? && !st.HeadersDone?
  }

  predicate Bounded(p: Parser) {
    p.nread <= MAX_HEADER_SIZE && p.index < 32 && p.status <= 999 && p.contentLength <= ULLONG_MAX &&
    (p.flags.trailing ==> p.flags.chunked)
  }

  predicate PlainOutcome(o: Outcome) { o.Fail? || (Plain(o.parser.st) && Bounded(o.parser)) }

  lemma PlainIsReachable(o: Outcome)
    requires PlainOutcome(o)
    ensures Sound(o)
  {
  }

  lemma BeforeUrlPlain(p: Parser, c: char)
    requires Bounded(p) && p.st.ReqSpacesBeforeUrl?
    ensures PlainOutcome(OnSpacesBeforeUrl(p, c))
  {
  }

  lemma UrlPlain(p: Parser, c: char)
    requires Bounded(p) && InUrl(p.st)
    ensures PlainOutcome(OnUrl(p, c))
  {
  }

  lemma StartReqSound(p: Parser, c: char)
    requires Bounded(p) && p.st.StartReq?
    ensures Sound(OnStartReq(p, c))
  {
  }

  lemma MethodSound(p: Parser, c: char)
    requires Bounded(p) && p.st.ReqMethod? && p.index <= |Name(p.verb)|
    ensures Sound(OnReqMethod(p, c))
  {
  }

  lemma VersionPlain(p: Parser, c: char, next: State)
    requires Bounded(p) && Plain(p.st) && Plain(next)
    ensures PlainOutcome(OnReqHttpStart(p, c)) && PlainOutcome(OnReqEnd(p, c))
    ensures PlainOutcome(OnMajor(p, c, next)) && PlainOutcome(OnMinor(p, c, next))
  {
  }

  lemma StatusPlain(p: Parser, c: char)
    requires Bounded(p) && Plain(p.st)
    ensures PlainOutcome(OnStatusStart(p, c)) && PlainOutcome(OnStatus(p, c))
  {
  }

  lemma StartResPlain(p: Parser, c: char)
    requires Bounded(p) && Plain(p.st)
    ensures PlainOutcome(OnStartRes(p, c)) && PlainOutcome(OnFirstStatusCode(p, c))
  {
  }

  lemma CodePlain(p: Parser, c: char)
    requires Bounded(p) && Plain(p.st)
    ensures PlainOutcome(OnStatusCode(p, c))
  {
    hide OnStatusStart;
    StatusPlain(p, c);
  }

  predicate ChoosesMethod(st: State) { st.StartReq? || st.ReqMethod? || st.StartReqOrRes? || st.ResOrRespH? }

  lemma StartLinePlain(p: Parser, c: char)
    requires Bounded(p) && InStartLine(p.st) && !ChoosesMethod(p.st)
    ensures PlainOutcome(StartLine(p, c))
  {
    hide PlainOutcome, Bounded, OnSpacesBeforeUrl, OnUrl, OnReqHttpStart, OnMajor, OnMinor, OnReqEnd, OnStartRes, OnFirstStatusCode, OnStatusCode, OnStatusStart, OnStatus;
    match p.st
    case ReqHttpStart => VersionPlain(p, c, ReqDot);
    case ReqMajor => VersionPlain(p, c, ReqDot);
    case ReqMinor => VersionPlain(p, c, ReqEnd);
    case ReqEnd => VersionPlain(p, c, ReqEnd);
    case ResMajor => VersionPlain(p, c, ResDot);
    case ResMinor => VersionPlain(p, c, ResEnd);
    case StartRes => StartResPlain(p, c);
    case ResFirstStatusCode => StartResPlain(p, c);
    case ResStatusCode => CodePlain(p, c);
    case ResStatusStart => StatusPlain(p, c);
    case ResStatus => StatusPlain(p, c);
    case ReqSpacesBeforeUrl => BeforeUrlPlain(p, c);
    case _ => UrlPlain(p, c);
  }

  lemma StartLineSound(p: Parser, c: char)
    requires Reachable(p) && InStartLine(p.st)
    ensures Sound(StartLine(p, c))
  {
    hide PlainOutcome, OnStartReq, OnReqMethod, OnUrl, OnSpacesBeforeUrl, OnMajor, OnMinor, OnReqEnd, OnStatusCode, OnStatusStart, OnStatus, OnStartRes, OnReqHttpStart, OnFirstStatusCode;
    assert Bounded(p);
    if p.st.StartReq? {
      StartReqSound(p, c);
    } else if p.st.ReqMethod? {
      MethodSound(p, c);
    } else if p.st.StartReqOrRes? {
      if c != CR && c != LF && c != 'H' { StartReqSound(Clean(p).(kind := Request, st := StartReq), c); }
    } else if !p.st.ResOrRespH? {
      StartLinePlain(p, c);
      PlainIsReachable(StartLine(p, c));
    }
  }

  // header names and values

  lemma FieldStartSound(p: Parser, c: char)
    requires Bounded(p) && Plain(p.st)
    ensures Sound(OnFieldStart(p, c))
  {
    if c == LF { HeadersAlmostDoneSound(p.(st := HeadersAlmostDone), c); }
  }

  lemma NewMessagePlain(p: Parser)
    requires Bounded(p)
    ensures Plain(NewMessage(p).st) && Bounded(NewMessage(p))
  {
  }

  lemma HeadersAlmostDoneSound(p: Parser, c: char)
    requires Bounded(p)
    ensures Sound(OnHeadersAlmostDone(p, c))
  {
    NewMessagePlain(p.(st := MessageDone));
    HeadersDoneSound(p.(upgrade := true));
    HeadersDoneSound(p.(upgrade := false));
  }

  lemma HeadersDoneSound(p: Parser)
    requires Bounded(p)
    ensures Sound(OnHeadersDone(p))
  {
    NewMessagePlain(p.(nread := 0));
  }

  /** What a compared byte can do, whatever the word. */
  lemma MatchWordShape(p: Parser, t: char, other: HeaderState)
    requires p.index + 1 < WordSize(p.hs)
    ensures var q := MatchWord(p, t, other);
      q == p.(index := p.index + 1, hs := other) ||
      q == p.(index := p.index + 1, hs := Found(p.hs), te := q.te) ||
      (p.index + 2 < WordSize(p.hs) && q == p.(index := p.index + 1))
  {
  }

  predicate Settled(hs: HeaderState) {
    !MatchesName(hs) && !MatchesToken(hs) && !hs.TokenStartTE? && !hs.TokenStartConn? && !hs.C? && !hs.CO? && !hs.CON?
  }

  lemma MatchFieldSound(p: Parser, c: char)
    requires Reachable(p) && p.st.Field?
    ensures Reachable(MatchField(p, c))
  {
    hide Token;
    if MatchesName(p.hs) { MatchWordShape(p, Token(c), General); }
  }

  lemma FieldSound(p: Parser, c: char)
    requires Reachable(p) && p.st.Field?
    ensures Sound(OnField(p, c))
  {
    if Token(c) != '\0' { MatchFieldSound(p, c); }
  }

  function ValueParser(p: Parser, hs: HeaderState, flags: Flags, n: nat): Parser {
    p.(st := Value, index := 0, hs := hs, flags := flags, contentLength := n)
  }

  lemma InValue(p: Parser, hs: HeaderState, flags: Flags, n: nat)
    requires Bounded(p) && ValueState(hs) && flags.trailing == p.flags.trailing && flags.chunked == p.flags.chunked && n <= ULLONG_MAX
    ensures Reachable(ValueParser(p, hs, flags, n))
  {
  }

  predicate EntersValue(p: Parser, o: Outcome) {
    o.Fail? || (o.Go? && var q := o.parser;
      q == ValueParser(p, q.hs, q.flags, q.contentLength) && ValueState(q.hs) && q.flags.trailing == p.flags.trailing &&
      q.flags.chunked == p.flags.chunked && (q.contentLength == p.contentLength || q.contentLength <= 9))
  }

  lemma ValueStartShape(p: Parser, c: char)
    ensures EntersValue(p, OnValueStart(p, c))
  {
    hide Lower, FirstOfConnection;
    FirstIsValue(c);
  }

  lemma FirstIsValue(c: char)
    ensures ValueState(FirstOfConnection(c, TokenConn))
  {
  }

  lemma ValueStartSound(p: Parser, c: char)
    requires Bounded(p)
    ensures Sound(OnValueStart(p, c))
  {
    hide Reachable, OnValueStart, ValueParser;
    ValueStartShape(p, c);
    var o := OnValueStart(p, c);
    if !o.Fail? { InValue(p, o.parser.hs, o.parser.flags, o.parser.contentLength); }
  }

  predicate ValueState(hs: HeaderState) { !hs.Connection? && !hs.TransferEncoding? }

  /** A value byte that ends or skips a token: nothing left to say about the index. */
  lemma ValueHop(p: Parser, q: Parser)
    requires Reachable(p) && p.st.Value? && q == p.(index := q.index, hs := q.hs, flags := q.flags, contentLength := q.contentLength)
    requires q.flags.trailing == p.flags.trailing && q.flags.chunked == p.flags.chunked && q.contentLength <= ULLONG_MAX
    requires q.index < 32 && ValueState(q.hs)
    requires MatchesToken(q.hs) ==> q.index + 1 < WordSize(q.hs)
    requires q.hs.TokenStartTE? || q.hs.TokenStartConn? ==> q.index == 0
    ensures Reachable(q)
  {
  }

  lemma TokenSound(p: Parser, c: char)
    requires Reachable(p) && p.st.Value? && MatchesToken(p.hs)
    ensures Sound(MatchValue(p, c))
  {
    MatchWordShape(p, Lower(c), OtherToken(p.hs));
    ValueHop(p, MatchWord(p, Lower(c), OtherToken(p.hs)));
  }

  lemma LengthSound(p: Parser, c: char)
    requires Reachable(p) && p.st.Value?
    ensures Sound(ContentLengthDigit(p, c))
  {
    var o := ContentLengthDigit(p, c);
    if !o.Fail? { ValueHop(p, o.parser); }
  }

  lemma ListSound(p: Parser, c: char)
    requires Reachable(p) && p.st.Value? && (p.hs.TokenStartTE? || p.hs.TokenStartConn?)
    ensures Sound(MatchValue(p, c))
  {
    ValueHop(p, p.(hs := NextCoding(c)));
    ValueHop(p, p.(hs := NextConnection(c)));
  }

  lemma MatchValueSound(p: Parser, c: char)
    requires Reachable(p) && p.st.Value?
    ensures Sound(MatchValue(p, c))
  {
    if MatchesToken(p.hs) {
      TokenSound(p, c);
    } else if p.hs.TokenStartTE? || p.hs.TokenStartConn? {
      ListSound(p, c);
    } else if p.hs.ContentLength? || p.hs.ContentLengthNum? {
      LengthSound(p, c);
    } else {
      OtherValueSound(p, c);
    }
  }

  lemma AfterTokenSound(p: Parser, c: char)
    requires Reachable(p) && p.st.Value? && (p.hs.KeepAlive? || p.hs.Close? || p.hs.ConnUpgrade?)
    ensures Reachable(AfterToken(p, c))
  {
    ValueHop(p, AfterToken(p, c));
  }

  lemma OtherValueSound(p: Parser, c: char)
    requires Reachable(p) && p.st.Value? && !MatchesToken(p.hs) && !p.hs.TokenStartTE? && !p.hs.TokenStartConn?
    requires !p.hs.ContentLength? && !p.hs.ContentLengthNum?
    ensures Sound(MatchValue(p, c))
  {
    match p.hs
    case TokenTE => ValueHop(p, p.(hs := TokenStartTE, index := 0));
    case Chunked => ValueHop(p, p.(hs := TokenTE));
    case TokenConn => ValueHop(p, p.(hs := TokenStartConn, index := 0));
    case KeepAlive => AfterTokenSound(p, c);
    case Close => AfterTokenSound(p, c);
    case ConnUpgrade => AfterTokenSound(p, c);
    case _ => ValueHop(p, p.(hs := General));
  }

  lemma ValueSound(p: Parser, c: char)
    requires Reachable(p) && p.st.Value?
    ensures Sound(OnValue(p, c))
  {
    MatchValueSound(p, c);
  }

  lemma ValueLwsSound(p: Parser, c: char)
    requires Reachable(p) && p.st.ValueLws?
    ensures Sound(OnValueLws(p, c))
  {
    if c == ' ' || c == TAB {
      ValueStartSound(p.(hs := if p.hs.ContentLengthNum? then ContentLengthWs else p.hs), c);
    } else {
      FieldStartSound(FinishHeader(p), c);
    }
  }

  lemma DiscardLwsSound(p: Parser, c: char)
    requires Reachable(p) && p.st.DiscardLws?
    ensures Sound(OnDiscardLws(p, c))
  {
    if c != ' ' && c != TAB { FieldStartSound(FinishHeader(p), c); }
  }

  lemma DiscardWsSound(p: Parser, c: char)
    requires Reachable(p) && p.st.DiscardWs?
    ensures Sound(OnDiscardWs(p, c))
  {
    if c != ' ' && c != TAB && c != CR && c != LF { ValueStartSound(p, c); }
  }

  // the body

  lemma ChunkSizeSound(p: Parser, c: char)
    requires Reachable(p) && p.st.ChunkSize?
    ensures Sound(OnChunkSize(p, c))
  {
  }

  lemma ChunkSound(p: Parser, c: char)
    requires Bounded(p) && p.flags.chunked && p.contentLength < ULLONG_MAX
    ensures Sound(OnChunkSizeAlmostDone(p, c))
    ensures 0 < p.contentLength ==> p.st.ChunkData? ==> Sound(OnChunkData(p))
  {
  }

  lemma IdentitySound(p: Parser)
    requires Reachable(p) && p.st.BodyIdentity?
    ensures Sound(OnBodyIdentity(p))
  {
    NewMessagePlain(p.(contentLength := p.contentLength - 1, st := MessageDone));
  }

  predicate InHeader(st: State) {
    st.FieldStart? || st.Field? || st.DiscardWs? || st.DiscardLws? || st.ValueStart? || st.Value? || st.ValueLws? ||
    st.HeadersAlmostDone?
  }

  lemma NameSound(p: Parser, c: char)
    requires Reachable(p) && (p.st.FieldStart? || p.st.Field? || p.st.HeadersAlmostDone?)
    ensures Sound(Switch(p, c))
  {
    hide Sound, OnFieldStart, OnField, OnHeadersAlmostDone, StartLine;
    if p.st.FieldStart? { FieldStartSound(p, c); } else if p.st.Field? { FieldSound(p, c); } else { HeadersAlmostDoneSound(p, c); }
  }

  lemma BlankSound(p: Parser, c: char)
    requires Reachable(p) && (p.st.DiscardWs? || p.st.DiscardLws?)
    ensures Sound(Switch(p, c))
  {
    hide Sound, OnDiscardWs, OnDiscardLws, StartLine;
    if p.st.DiscardWs? { DiscardWsSound(p, c); } else { DiscardLwsSound(p, c); }
  }

  lemma ContentSound(p: Parser, c: char)
    requires Reachable(p) && (p.st.ValueStart? || p.st.Value? || p.st.ValueLws?)
    ensures Sound(Switch(p, c))
  {
    hide Sound, OnValueStart, OnValue, OnValueLws, StartLine;
    if p.st.ValueStart? { ValueStartSound(p, c); } else if p.st.Value? { ValueSound(p, c); } else { ValueLwsSound(p, c); }
  }

  lemma HeaderSound(p: Parser, c: char)
    requires Reachable(p) && InHeader(p.st)
    ensures Sound(Switch(p, c))
  {
    hide Sound, Switch;
    if p.st.FieldStart? || p.st.Field? || p.st.HeadersAlmostDone? {
      NameSound(p, c);
    } else if p.st.DiscardWs? || p.st.DiscardLws? {
      BlankSound(p, c);
    } else {
      ContentSound(p, c);
    }
  }

  lemma RestSound(p: Parser)
    requires Reachable(p)
    ensures p.st.ChunkParameters? ==> Sound(Go(p.(st := ChunkSizeAlmostDone), []))
    ensures p.st.ChunkDataAlmostDone? ==> Sound(Go(p.(st := ChunkDataDone), [Flush(Body)]))
    ensures p.st.ChunkDataDone? ==> Sound(Go(p.(nread := 0, st := ChunkSizeStart), []))
    ensures Sound(Go(p, [])) && Sound(Go(p, [Mark(Body)])) && !p.st.HeadersDone? && !p.st.MessageDone?
  {
  }

  lemma ChunkIsBounded(p: Parser)
    requires Reachable(p) && (p.st.ChunkSizeAlmostDone? || p.st.ChunkData?)
    ensures Bounded(p) && p.flags.chunked && p.contentLength < ULLONG_MAX
  {
  }

  lemma BodySound(p: Parser, c: char)
    requires if p.st.ChunkSizeStart? then Bounded(p) && p.flags.chunked else Reachable(p)
    requires Expected(p.st).None? && !InStartLine(p.st) && !InHeader(p.st)
    ensures Sound(Switch(p, c))
  {
    hide Reachable, Bounded, StartLine, OnBodyIdentity, OnFieldStart, OnField, OnDiscardWs, OnDiscardLws, OnValueStart, OnValue, OnValueLws;
    hide OnHeadersAlmostDone, OnHeadersDone, OnMessageDone, OnChunkSize, OnChunkSizeStart, OnChunkSizeAlmostDone, OnChunkData;
    match p.st
    case ChunkSizeStart => ChunkStartSound(p, c);
    case ChunkSize => ChunkSizeSound(p, c);
    case ChunkSizeAlmostDone =>
      ChunkIsBounded(p);
      ChunkSound(p, c);
    case ChunkData =>
      ChunkIsBounded(p);
      ChunkSound(p, c);
    case BodyIdentity => IdentitySound(p);
    case _ => RestSound(p);
  }

  lemma ChunkStartSound(p: Parser, c: char)
    requires Bounded(p) && p.flags.chunked
    ensures Sound(OnChunkSizeStart(p, c))
  {
  }

  lemma SwitchSound(p: Parser, c: char)
    requires if p.st.ChunkSizeStart? then Bounded(p) && p.flags.chunked else Reachable(p)
    ensures Sound(Switch(p, c))
  {
    hide StartLine, OnFieldStart, OnField, OnDiscardWs, OnDiscardLws, OnValueStart, OnValue, OnValueLws, OnHeadersAlmostDone, OnBodyIdentity;
    if Expected(p.st).Some? {
    } else if InStartLine(p.st) {
      StartLineSound(p, c);
    } else if InHeader(p.st) {
      HeaderSound(p, c);
    } else {
      BodySound(p, c);
    }
  }

  lemma CountedReachable(p: Parser)
    requires Reachable(p) && (ParsingHeader(p.st) ==> p.nread < MAX_HEADER_SIZE)
    ensures var q := Counted(p); if q.st.ChunkSizeStart? then Bounded(q) && q.flags.chunked else Reachable(q)
  {
  }

  /** Every byte leads from a reachable state to a reachable state, or to an error. */
  lemma AdvanceSound(p: Parser, c: char)
    requires Reachable(p)
    ensures Sound(Advance(p, c))
  {
    if !(ParsingHeader(p.st) && Counted(p).nread > MAX_HEADER_SIZE) {
      CountedReachable(p);
      SwitchSound(Counted(p), c);
    }
  }
}
