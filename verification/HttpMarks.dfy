/** The marks of http_parser_execute: which can be set where, and why one byte at a time comes to the same. */
module HttpMarks {
  import opened HttpAutomaton
  import opened HttpHeaders
  import opened HttpRuns
  import opened HttpConsumer

  /** A mark: what it is for, and where in the data it points. */
  type Pin = Option<(Data, nat)>

  function KindOf(pin: Pin): Option<Data> { if pin.None? then None else Some(pin.value.0) }

  predicate CarriesBody(st: State) { st.ChunkData? || st.ChunkDataAlmostDone? || st.BodyIdentity? || st.BodyIdentityEof? }

  /** The marks that can be set between two bytes. */
  predicate Carried(st: State, mark: Option<Data>) {
    mark == MarkAt(st) || (mark == Some(Body) && CarriesBody(st))
  }

  function MarkAfter(mark: Option<Data>, acts: seq<Act>): Option<Data>
    decreases |acts|
  {
    if acts == [] then mark
    else match acts[0]
      case Mark(d) => MarkAfter(if mark.None? then Some(d) else mark, acts[1..])
      case Flush(d) => MarkAfter(if mark == Some(d) then None else mark, acts[1..])
      case FlushThis(d) => MarkAfter(if mark == Some(d) then None else mark, acts[1..])
      case _ => MarkAfter(mark, acts[1..])
  }

  /** MARK never finds another mark set, and the notifications find none. */
  predicate OneAtMost(mark: Option<Data>, acts: seq<Act>)
    decreases |acts|
  {
    acts == [] ||
    match acts[0]
    case Mark(d) => (mark.None? || mark == Some(d)) && OneAtMost(Some(d), acts[1..])
    case Flush(d) => OneAtMost(if mark == Some(d) then None else mark, acts[1..])
    case FlushThis(d) => OneAtMost(if mark == Some(d) then None else mark, acts[1..])
    case _ => mark.None? && OneAtMost(mark, acts[1..])
  }

  /** The macros run with a mark into the data, at byte i. */
  function RunActs(c: Ctx, pin: Pin, acts: seq<Act>, data: string, i: nat): (Ctx, Pin)
    requires i < |data| && (pin.Some? ==> pin.value.1 <= i)
    decreases |acts|
  {
    if acts == [] then (c, pin)
    else match acts[0]
      case Mark(d) => RunActs(c, if pin.None? then Some((d, i)) else pin, acts[1..], data, i)
      case Flush(d) =>
        if KindOf(pin) == Some(d) then RunActs(Deliver(c, d, data[pin.value.1..i]), None, acts[1..], data, i)
        else RunActs(c, pin, acts[1..], data, i)
      case FlushThis(d) =>
        if KindOf(pin) == Some(d) then RunActs(Deliver(c, d, data[pin.value.1..i + 1]), None, acts[1..], data, i)
        else RunActs(c, pin, acts[1..], data, i)
      case HeadersComplete => RunActs(OnHeadersComplete(c), pin, acts[1..], data, i)
      case MessageComplete => RunActs(OnMessageComplete(c), pin, acts[1..], data, i)
  }

  /** What the consumer would know if the marked bytes before i had been handed over already. */
  function Pending(c: Ctx, pin: Pin, data: string, i: nat): Ctx
    requires i <= |data| && (pin.Some? ==> pin.value.1 <= i)
  {
    if pin.None? || pin.value.1 == i then c else Deliver(c, pin.value.0, data[pin.value.1..i])
  }

  /** A byte-wise mark: the same, or none where a body mark is carried past the state that set it. */
  predicate Shadows(mark: Option<Data>, pin: Pin, acts: seq<Act>) {
    mark == KindOf(pin) ||
    (mark.None? && KindOf(pin) == Some(Body) && acts != [] && (acts[0] == Mark(Body) || acts[0] == Flush(Body)))
  }

  lemma PendingGrows(c: Ctx, pin: Pin, data: string, i: nat)
    requires i < |data| && pin.Some? && pin.value.1 <= i
    ensures Deliver(Pending(c, pin, data, i), pin.value.0, [data[i]]) == Pending(c, pin, data, i + 1)
    ensures Pending(c, pin, data, i + 1) == Deliver(c, pin.value.0, data[pin.value.1..i + 1])
  {
    var (d, j) := pin.value;
    assert data[j..i] + [data[i]] == data[j..i + 1];
    if j < i { DeliverJoin(c, d, data[j..i], [data[i]]); } else { assert data[j..i] == ""; }
  }

  lemma PendingFlush(c: Ctx, pin: Pin, data: string, i: nat)
    requires i < |data| && pin.Some? && pin.value.1 <= i
    ensures Deliver(Pending(c, pin, data, i), pin.value.0, "") == Deliver(c, pin.value.0, data[pin.value.1..i])
    ensures pin.value.0.Body? ==> Pending(c, pin, data, i) == Deliver(c, Body, data[pin.value.1..i])
  {
    var (d, j) := pin.value;
    assert data[j..i] + "" == data[j..i];
    if j < i { DeliverJoin(c, d, data[j..i], ""); } else { assert data[j..i] == "" && c.body + "" == c.body; }
  }

  /** One byte's acts with a mark into longer data hand over, by the next byte, just what they do byte-wise. */
  lemma {:induction false} ActsAgree(c: Ctx, pin: Pin, s: Ctx, mark: Option<Data>, acts: seq<Act>, data: string, i: nat)
    requires i < |data| && (pin.Some? ==> pin.value.1 <= i)
    requires s == Pending(c, pin, data, i) && Shadows(mark, pin, acts) && OneAtMost(KindOf(pin), acts)
    ensures var (a, p) := RunActs(c, pin, acts, data, i);
      KindOf(p) == MarkAfter(KindOf(pin), acts) && (p.Some? ==> p.value.1 <= i) &&
      Perform(s, mark, acts, data[i]) == Pending(a, p, data, i + 1)
    decreases |acts|
  {
    if pin.Some? { PendingGrows(c, pin, data, i); PendingFlush(c, pin, data, i); }
    if acts != [] {
      var rest := acts[1..];
      match acts[0]
      case Mark(d) =>
        ActsAgree(c, if pin.None? then Some((d, i)) else pin, s, if mark.None? then Some(d) else mark, rest, data, i);
      case Flush(d) =>
        if KindOf(pin) == Some(d) {
          ActsAgree(Deliver(c, d, data[pin.value.1..i]), None, if mark == Some(d) then Deliver(s, d, "") else s, None, rest, data, i);
        } else {
          ActsAgree(c, pin, s, mark, rest, data, i);
        }
      case FlushThis(d) =>
        if KindOf(pin) == Some(d) {
          ActsAgree(Deliver(c, d, data[pin.value.1..i + 1]), None, Deliver(s, d, [data[i]]), None, rest, data, i);
        } else {
          ActsAgree(c, pin, s, mark, rest, data, i);
        }
      case HeadersComplete =>
        ActsAgree(OnHeadersComplete(c), pin, OnHeadersComplete(s), mark, rest, data, i);
      case MessageComplete =>
        ActsAgree(OnMessageComplete(c), pin, OnMessageComplete(s), mark, rest, data, i);
    }
  }

  predicate MarksFit(st: State, mark: Option<Data>, o: Outcome) {
    o.Fail? || (OneAtMost(mark, o.acts) && Carried(o.parser.st, MarkAfter(mark, o.acts)))
  }

  lemma {:induction false} MarksJoin(mark: Option<Data>, a: seq<Act>, b: seq<Act>)
    ensures MarkAfter(mark, a + b) == MarkAfter(MarkAfter(mark, a), b)
    ensures OneAtMost(mark, a) ==> OneAtMost(mark, a + b) == OneAtMost(MarkAfter(mark, a), b)
    decreases |a|
  {
    if a == [] {
      assert a + b == b;
    } else {
      assert (a + b)[1..] == a[1..] + b;
      match a[0]
      case Mark(d) =>
        MarksJoin(if mark.None? then Some(d) else mark, a[1..], b);
        MarksJoin(Some(d), a[1..], b);
      case Flush(d) => MarksJoin(if mark == Some(d) then None else mark, a[1..], b);
      case FlushThis(d) => MarksJoin(if mark == Some(d) then None else mark, a[1..], b);
      case _ => MarksJoin(mark, a[1..], b);
    }
  }

  /** Short lists, spelled out. */
  lemma MarksOf(mark: Option<Data>, d: Data, e: Act)
    ensures MarkAfter(mark, []) == mark && OneAtMost(mark, [])
    ensures MarkAfter(mark, [Mark(d)]) == (if mark.None? then Some(d) else mark)
    ensures OneAtMost(mark, [Mark(d)]) == (mark.None? || mark == Some(d))
    ensures MarkAfter(mark, [Flush(d)]) == (if mark == Some(d) then None else mark) && OneAtMost(mark, [Flush(d)])
    ensures mark.None? ==> MarkAfter(mark, [Mark(d), Flush(d)]) == None && OneAtMost(mark, [Mark(d), Flush(d)])
    ensures mark.None? || mark == Some(d) ==>
      MarkAfter(mark, [Mark(d), FlushThis(d)]) == None && OneAtMost(mark, [Mark(d), FlushThis(d)])
    ensures e.HeadersComplete? || e.MessageComplete? ==>
      MarkAfter(mark, [e]) == mark && (OneAtMost(mark, [e]) == mark.None?)
  {
    assert [Mark(d), Flush(d)][1..] == [Flush(d)] && [Mark(d), FlushThis(d)][1..] == [FlushThis(d)];
    assert [Mark(d)][1..] == [] && [Flush(d)][1..] == [] && [FlushThis(d)][1..] == [] && [e][1..] == [];
  }

  lemma ThenFits(acts: seq<Act>, o: Outcome, st: State, mark: Option<Data>)
    requires OneAtMost(mark, acts) && MarksFit(st, MarkAfter(mark, acts), o)
    ensures MarksFit(st, mark, Then(acts, o))
  {
    if !o.Fail? { MarksJoin(mark, acts, o.acts); }
  }

  lemma StatusMarks(p: Parser, c: char)
    ensures MarksFit(p.st, None, OnStatusStart(p, c))
    ensures p.st.ResStatusCode? ==> MarksFit(p.st, None, OnStatusCode(p, c))
    ensures p.st.ResStatus? ==> MarksFit(p.st, Some(Status), OnStatus(p, c))
  {
    MarksOf(None, Status, HeadersComplete);
    MarksOf(Some(Status), Status, HeadersComplete);
    if c == CR || c == LF {
      var q := p.(st := ResStatus, index := 0);
      ThenFits([Mark(Status)], OnStatus(q, c), q.st, None);
    }
  }

  lemma BeforeUrlMarks(p: Parser, c: char)
    requires p.st.ReqSpacesBeforeUrl?
    ensures MarksFit(p.st, None, OnSpacesBeforeUrl(p, c))
  {
    MarksOf(None, Url, HeadersComplete);
  }

  lemma UrlMarks(p: Parser, c: char)
    ensures InUrl(p.st) ==> MarksFit(p.st, Some(Url), OnUrl(p, c))
  {
    MarksOf(Some(Url), Url, HeadersComplete);
  }

  /** No acts, and a state that carries no mark. */
  predicate Quiet(o: Outcome) { o.Fail? || (o.acts == [] && MarkAt(o.parser.st).None?) }

  lemma QuietFits(st: State, o: Outcome)
    requires Quiet(o)
    ensures MarksFit(st, None, o)
  {
  }

  lemma StartQuiet(p: Parser, c: char)
    ensures p.st.StartReq? ==> Quiet(OnStartReq(p, c))
    ensures p.st.StartReqOrRes? ==> Quiet(OnStartReqOrRes(p, c))
    ensures p.st.StartRes? ==> Quiet(OnStartRes(p, c))
    ensures Quiet(OnResOrRespH(p, c))
    ensures p.st.ReqMethod? ==> Quiet(OnReqMethod(p, c))
  {
  }

  lemma VersionQuiet(p: Parser, c: char, next: State)
    requires MarkAt(p.st).None? && MarkAt(next).None?
    ensures Quiet(OnMajor(p, c, next)) && Quiet(OnMinor(p, c, next))
  {
  }

  lemma HttpQuiet(p: Parser, c: char)
    requires MarkAt(p.st).None?
    ensures Quiet(OnReqHttpStart(p, c)) && Quiet(OnReqEnd(p, c)) && Quiet(OnFirstStatusCode(p, c))
  {
  }

  lemma LineQuiet(p: Parser, c: char)
    requires InStartLine(p.st) && !p.st.ReqSpacesBeforeUrl? && !InUrl(p.st)
    requires !p.st.ResStatusStart? && !p.st.ResStatus? && !p.st.ResStatusCode?
    ensures Quiet(StartLine(p, c)) && MarkAt(p.st).None?
  {
    if p.st.ReqHttpStart? || p.st.ReqEnd? || p.st.ResFirstStatusCode? {
      HttpQuiet(p, c);
    } else if p.st.ReqMajor? || p.st.ReqMinor? || p.st.ResMajor? || p.st.ResMinor? {
      VersionQuiet(p, c, ReqDot);
      VersionQuiet(p, c, ReqEnd);
      VersionQuiet(p, c, ResDot);
      VersionQuiet(p, c, ResEnd);
    } else {
      StartQuiet(p, c);
    }
  }

  lemma StartLineMarks(p: Parser, c: char)
    requires InStartLine(p.st)
    ensures MarksFit(p.st, MarkAt(p.st), StartLine(p, c))
  {
    if p.st.ReqSpacesBeforeUrl? {
      BeforeUrlMarks(p, c);
    } else if InUrl(p.st) {
      UrlMarks(p, c);
    } else if p.st.ResStatusStart? || p.st.ResStatus? || p.st.ResStatusCode? {
      StatusMarks(p, c);
    } else {
      LineQuiet(p, c);
      QuietFits(p.st, StartLine(p, c));
    }
  }

  // headers

  lemma HeadersDoneMarks(p: Parser)
    ensures MarksFit(HeadersDone, None, OnHeadersDone(p)) && MarksFit(MessageDone, None, OnMessageDone(p))
  {
    MarksOf(None, Url, MessageComplete);
  }

  lemma AlmostDoneMarks(p: Parser, c: char)
    ensures MarksFit(HeadersAlmostDone, None, OnHeadersAlmostDone(p, c))
  {
    MarksOf(None, FieldData, HeadersComplete);
    HeadersDoneMarks(p.(st := MessageDone));
    HeadersDoneMarks(p.(upgrade := true));
    HeadersDoneMarks(p.(upgrade := false));
    ThenFits([HeadersComplete], OnHeadersDone(p.(upgrade := true)), HeadersDone, None);
    ThenFits([HeadersComplete], OnHeadersDone(p.(upgrade := false)), HeadersDone, None);
  }

  lemma FieldStartMarks(p: Parser, c: char)
    ensures MarksFit(FieldStart, None, OnFieldStart(p, c))
  {
    if c == LF {
      AlmostDoneMarks(p.(st := HeadersAlmostDone), c);
    } else {
      MarksOf(None, FieldData, HeadersComplete);
    }
  }

  lemma FieldMarks(p: Parser, c: char)
    requires p.st.Field?
    ensures MarksFit(Field, Some(FieldData), OnField(p, c))
  {
    MarksOf(Some(FieldData), FieldData, HeadersComplete);
    assert MatchField(p, c).st == Field;
  }

  lemma ValueStartMarks(p: Parser, c: char)
    ensures MarksFit(ValueStart, None, OnValueStart(p, c))
  {
    MarksOf(None, ValueData, HeadersComplete);
  }

  lemma MatchValueQuiet(p: Parser, c: char)
    requires p.st.Value?
    ensures var o := MatchValue(p, c); o.Fail? || (o.Go? && o.acts == [] && o.parser.st.Value?)
  {
  }

  lemma ValueMarks(p: Parser, c: char)
    requires p.st.Value?
    ensures MarksFit(Value, Some(ValueData), OnValue(p, c))
  {
    MarksOf(Some(ValueData), ValueData, HeadersComplete);
    MatchValueQuiet(p, c);
  }

  lemma ValueLwsMarks(p: Parser, c: char)
    ensures MarksFit(ValueLws, None, OnValueLws(p, c))
  {
    if c == ' ' || c == TAB {
      ValueStartMarks(p.(hs := if p.hs.ContentLengthNum? then ContentLengthWs else p.hs), c);
    } else {
      FieldStartMarks(FinishHeader(p), c);
    }
  }

  lemma DiscardMarks(p: Parser, c: char)
    ensures p.st.DiscardWs? ==> MarksFit(DiscardWs, None, OnDiscardWs(p, c))
    ensures MarksFit(DiscardLws, None, OnDiscardLws(p, c))
  {
    ValueStartMarks(p, c);
    FieldStartMarks(FinishHeader(p), c);
    MarksOf(None, ValueData, HeadersComplete);
    ThenFits([Mark(ValueData), Flush(ValueData)], OnFieldStart(FinishHeader(p), c), FieldStart, None);
  }

  lemma HeaderMarks(p: Parser, c: char)
    requires InHeader(p.st)
    ensures MarksFit(p.st, MarkAt(p.st), Switch(p, c))
  {
    hide MarksFit, StartLine, OnFieldStart, OnField, OnDiscardWs, OnDiscardLws, OnValueStart, OnValue, OnValueLws, OnHeadersAlmostDone;
    match p.st
    case FieldStart => FieldStartMarks(p, c);
    case Field => FieldMarks(p, c);
    case DiscardWs => DiscardMarks(p, c);
    case DiscardLws => DiscardMarks(p, c);
    case ValueStart => ValueStartMarks(p, c);
    case Value => ValueMarks(p, c);
    case ValueLws => ValueLwsMarks(p, c);
    case HeadersAlmostDone => AlmostDoneMarks(p, c);
  }

  // bodies

  lemma IdentityMarks(p: Parser, mark: Option<Data>)
    requires p.st.BodyIdentity? && p.contentLength > 0 && Carried(BodyIdentity, mark)
    ensures MarksFit(BodyIdentity, mark, OnBodyIdentity(p))
  {
    MarksOf(mark, Body, HeadersComplete);
    var q := p.(contentLength := p.contentLength - 1, st := MessageDone);
    HeadersDoneMarks(q);
    ThenFits([Mark(Body), FlushThis(Body)], OnMessageDone(q), MessageDone, mark);
  }

  lemma ChunkQuiet(p: Parser, c: char)
    ensures Quiet(OnChunkSizeStart(p, c)) && (p.st.ChunkSize? ==> Quiet(OnChunkSize(p, c))) && Quiet(OnChunkSizeAlmostDone(p, c))
  {
  }

  predicate SizingChunk(st: State) { st.ChunkSizeStart? || st.ChunkSize? || st.ChunkParameters? || st.ChunkSizeAlmostDone? }

  lemma SizingQuiet(p: Parser, c: char)
    requires SizingChunk(p.st)
    ensures Quiet(Switch(p, c)) && MarkAt(p.st).None?
  {
    ChunkQuiet(p, c);
  }

  lemma ChunkDataMarks(p: Parser, mark: Option<Data>)
    requires p.st.ChunkData? && p.contentLength > 0 && Carried(ChunkData, mark)
    ensures MarksFit(ChunkData, mark, OnChunkData(p))
  {
    MarksOf(mark, Body, HeadersComplete);
  }

  lemma AfterChunkMarks(p: Parser, mark: Option<Data>)
    requires Carried(p.st, mark)
    ensures p.st.ChunkDataAlmostDone? ==> MarksFit(p.st, mark, Go(p.(st := ChunkDataDone), [Flush(Body)]))
    ensures p.st.ChunkDataDone? ==> MarksFit(p.st, mark, Go(p.(nread := 0, st := ChunkSizeStart), []))
    ensures p.st.BodyIdentityEof? ==> MarksFit(p.st, mark, Go(p, [Mark(Body)]))
    ensures p.st.Dead? ==> MarksFit(p.st, mark, Go(p, []))
  {
    MarksOf(mark, Body, HeadersComplete);
  }

  lemma FailMarks(st: State, mark: Option<Data>, e: Errno)
    ensures MarksFit(st, mark, Fail(e))
  {
  }

  lemma DoneCarries(st: State, mark: Option<Data>)
    requires (st.HeadersDone? || st.MessageDone?) && Carried(st, mark)
    ensures mark.None?
  {
  }

  lemma BodyMarks(p: Parser, c: char, mark: Option<Data>)
    requires Expected(p.st).None? && !InStartLine(p.st) && !InHeader(p.st) && !SizingChunk(p.st) && Carried(p.st, mark)
    ensures MarksFit(p.st, mark, Switch(p, c))
  {
    hide StartLine, OnHeadersDone, OnMessageDone, OnFieldStart, OnDiscardLws, OnValueLws, OnBodyIdentity, OnChunkData, MarksFit, Carried;
    FailMarks(p.st, mark, Strict);
    FailMarks(p.st, mark, InvalidInternalState);
    FailMarks(p.st, mark, ClosedConnection);
    match p.st
    case BodyIdentity => if p.contentLength > 0 { IdentityMarks(p, mark); }
    case HeadersDone =>
      DoneCarries(p.st, mark);
      HeadersDoneMarks(p);
    case MessageDone =>
      DoneCarries(p.st, mark);
      HeadersDoneMarks(p);
    case ChunkData => if p.contentLength > 0 { ChunkDataMarks(p, mark); }
    case _ => AfterChunkMarks(p, mark);
  }

  /** The assertion at the end of http_parser_execute: whatever the byte, at most one mark is set, and the state says which. */
  lemma MarksAlwaysFit(p: Parser, c: char, mark: Option<Data>)
    requires Carried(p.st, mark)
    ensures MarksFit(p.st, mark, Switch(p, c))
  {
    if Expected(p.st).Some? {
    } else if InStartLine(p.st) {
      StartLineMarks(p, c);
    } else if InHeader(p.st) {
      HeaderMarks(p, c);
    } else if SizingChunk(p.st) {
      SizingQuiet(p, c);
      QuietFits(p.st, Switch(p, c));
    } else {
      BodyMarks(p, c, mark);
    }
  }

  /** In the states that carry a body mark past the one that set it, the next byte begins by marking or flushing it. */
  lemma BodyActs(p: Parser, c: char)
    requires CarriesBody(p.st)
    ensures var o := Switch(p, c); o.Fail? || (o.acts != [] && (o.acts[0] == Mark(Body) || o.acts[0] == Flush(Body)))
  {
  }

  predicate InStep(m: Machine, c: Ctx, pin: Pin, data: string, i: nat) {
    i <= |data| && (pin.Some? ==> pin.value.1 <= i) && m.ctx == Pending(c, pin, data, i) && Carried(m.parser.st, KindOf(pin))
  }

  /** One byte of longer data keeps step with the byte-wise run. */
  lemma ByteInStep(m: Machine, c: Ctx, pin: Pin, data: string, i: nat)
    requires i < |data| && InStep(m, c, pin, data, i) && !Advance(m.parser, data[i]).Fail?
    ensures var o := Advance(m.parser, data[i]);
      var (a, p) := RunActs(c, pin, o.acts, data, i);
      var r := One(m, data[i]);
      (if o.Go? then r.Done? else r.Left?) && r.m.parser == o.parser && InStep(r.m, a, p, data, i + 1) &&
      (p.Some? ==> p.value.1 <= i)
  {
    var q := Counted(m.parser);
    var o := Switch(q, data[i]);
    MarksAlwaysFit(q, data[i], KindOf(pin));
    if CarriesBody(q.st) { BodyActs(q, data[i]); }
    ActsAgree(c, pin, m.ctx, MarkAt(m.parser.st), o.acts, data, i);
  }

  /** Bytes handed over in one piece, then pending. */
  lemma PendingExtends(c: Ctx, pin: Pin, data: string, i: nat, k: nat)
    requires i + k <= |data| && pin.Some? && pin.value.1 <= i
    ensures k == 0 ==> Pending(c, pin, data, i + k) == Pending(c, pin, data, i)
    ensures k > 0 ==> Pending(c, pin, data, i + k) == Deliver(Pending(c, pin, data, i), pin.value.0, data[i..i + k])
  {
    var (d, j) := pin.value;
    assert data[j..i] + data[i..i + k] == data[j..i + k];
    if j < i { DeliverJoin(c, d, data[j..i], data[i..i + k]); }
  }
}
