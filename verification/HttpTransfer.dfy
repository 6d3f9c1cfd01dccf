/** Requests with any header lines: what Transfer-Encoding, Connection, Upgrade and Content-Length make of the message, and
    what of the connection after it. */
module HttpTransfer {
  import opened HttpAutomaton
  import opened HttpHeaders
  import opened HttpConsumer
  import opened HttpMarks
  import opened HttpBytes
  import opened HttpFraming
  import opened HttpRequestLine
  import opened HttpHeaderLines
  import opened HttpListValues
  import opened HttpRoundTrip

  // ------------------------------------------------------------------ reading a value

  predicate PlainBytes(s: string) { forall i | 0 <= i < |s| :: PlainByte(s[i]) }

  lemma FoldNread(q: Parser, s: string, n: nat)
    ensures var (a, b) := (Fold(q, s), Fold(q.(nread := n), s));
      a.Some? == b.Some? && (a.Some? ==> b.value == a.value.(nread := n))
  {
    hide MatchValue;
    if s != "" {
      FoldNread(q, s[..|s| - 1], n);
      var a := Fold(q, s[..|s| - 1]);
      if a.Some? { MatchValueNread(a.value, s[|s| - 1], n); }
    }
  }

  lemma StartNread(p: Parser, c: char, n: nat)
    ensures var o, b := OnValueStart(p, c), OnValueStart(p.(nread := n), c);
      if o.Fail? then b.Fail? else b == Go(o.parser.(nread := n), [Mark(ValueData)])
    ensures var o := OnValueStart(p, c); !o.Fail? ==> o == Go(o.parser, [Mark(ValueData)]) && o.parser.st.Value? && o.parser.nread == p.nread
  {
    hide Lower, FirstOfConnection, IsNum;
  }

  lemma FoldLast(q: Parser, s: string)
    requires s != "" && Fold(q, s).Some?
    ensures Fold(q, s[..|s| - 1]).Some?
    ensures var o := MatchValue(Fold(q, s[..|s| - 1]).value, s[|s| - 1]); !o.Fail? && Fold(q, s).value == o.parser
  {
    hide MatchValue;
  }

  lemma {:induction false} FoldRuns(m: Machine, s: string)
    requires m.parser.st.Value? && PlainBytes(s) && m.parser.nread + |s| <= MAX_HEADER_SIZE && Fold(m.parser, s).Some?
    ensures var q := Fold(m.parser, s).value;
      q.st.Value? && q.nread == m.parser.nread
      && Run(m, s) == Done(Machine(q.(nread := q.nread + |s|), if s == "" then m.ctx else Deliver(m.ctx, ValueData, s)))
  {
    hide One, Run, MatchValue, Deliver, IsHeaderChar;
    if s == "" {
      Empty(m);
    } else {
      var init, c := s[..|s| - 1], s[|s| - 1];
      assert s == init + [c] && PlainByte(c);
      FoldRuns(m, init);
      var a := Fold(m.parser, init).value;
      FoldLast(m.parser, s);
      hide Fold, PlainBytes, PlainByte;
      var n := Machine(a.(nread := a.nread + |init|), if init == "" then m.ctx else Deliver(m.ctx, ValueData, init));
      RunOne(m, init, c);
      OneValue(n, c);
      MatchValueQuiet(a, c);
      MatchValueNread(a, c, a.nread);
      MatchValueNread(a, c, a.nread + |s|);
      assert a.(nread := a.nread) == a;
      assert Counted(n.parser) == a.(nread := a.nread + |s|);
      if init != "" { DeliverJoin(m.ctx, ValueData, init, [c]); }
    }
  }

  /** A value read by the matcher from the blanks behind the colon. */
  lemma ReadingRuns(m: Machine, v: string)
    requires m.parser.st.DiscardWs? && PlainValue(v) && v != "" && m.parser.nread + |v| <= MAX_HEADER_SIZE
    requires Reading(m.parser, v).Some?
    ensures var q := Reading(m.parser, v).value;
      q.st.Value? && q.nread == m.parser.nread
      && Run(m, v) == Done(Machine(q.(nread := q.nread + |v|), Deliver(m.ctx, ValueData, v)))
  {
    hide One, Run, OnValueStart, Deliver, IsHeaderChar, Fold;
    var c := v[0];
    var n := m.parser.nread;
    assert PlainByte(c);
    StartNread(m.parser, c, n + 1);
    FirstValueByte(m, c);
    var a := OnValueStart(m.parser, c).parser;
    var b := Machine(a.(nread := n + 1), Deliver(m.ctx, ValueData, [c]));
    assert Counted(m.parser) == m.parser.(nread := n + 1);
    assert One(m, c) == Done(b);
    Empty(m);
    RunOne(m, "", c);
    assert "" + [c] == [c] && v == [c] + v[1..];
    FoldNread(a, v[1..], n + 1);
    FoldNread(a, v[1..], n);
    assert a.(nread := n) == a;
    FoldRuns(b, v[1..]);
    RunJoin(m, [c], v[1..]);
    DeliverJoin(m.ctx, ValueData, [c], v[1..]);
    assert v[1..] == "" ==> [c] == v;
  }

  // ------------------------------------------------------------------ one line

  /** What reading a line does to the parser besides moving on: the flags, the transfer coding bit and the length. */
  predicate SameMessage(p: Parser, q: Parser) {
    q == p.(st := q.st, hs := q.hs, index := q.index, nread := q.nread, te := q.te, flags := q.flags, contentLength := q.contentLength)
  }

  predicate LineDone(m: Machine, b: Machine, h: Header) {
    var a := Settle(b);
    (b.parser.st.ValueLws? || (b.parser.st.DiscardLws? && !b.parser.hs.ContentLength?)) &&
    a.ctx == AfterHeader(m.ctx, h.0, h.1) && a.parser.st.FieldStart? && SameMessage(m.parser, a.parser) &&
    a.parser.nread == m.parser.nread + |HeaderText(h)|
  }

  /** A line with a value: the name, then what the matcher makes of the value, then the header is finished. */
  lemma ValueLine(m: Machine, h: Header) returns (q: Parser, b: Machine)
    requires m.parser.st.FieldStart? && Ready(m.ctx) && TokenName(h.0) && PlainValue(h.1) && h.1 != ""
    requires m.parser.nread + |HeaderText(h)| <= MAX_HEADER_SIZE
    ensures q == m.parser.(st := DiscardWs, hs := q.hs, index := q.index, te := q.te, nread := q.nread)
    ensures NameKnown(q, LowerName(h.0), m.parser.te)
    ensures var r := Reading(q, h.1); r.Some? ==>
      Reads(m, HeaderText(h), b) && b.parser.st.ValueLws? && Settle(b).ctx == AfterHeader(m.ctx, h.0, h.1)
      && b.parser == r.value.(nread := b.parser.nread, st := ValueLws) && b.parser.nread == m.parser.nread + |HeaderText(h)|
  {
    hide One, Run, OnFieldData, NameKnown, Deliver, TokenName, FinishHeader, PlainValue, Reads, Reading;
    var (k, v) := h;
    q := NamePart(m, k);
    NamedValue(m.ctx, k, v);
    var a := Machine(q, OnFieldData(m.ctx, k));
    b := m;
    if Reading(q, v).Some? {
      ReadingRuns(a, v);
      var r := Reading(q, v).value;
      var c := Machine(r.(nread := r.nread + |v|), Deliver(a.ctx, ValueData, v));
      ReadsIs(a, v, c);
      ReadOn(m, k + ": ", a, v, c);
      ValueLineEnds(c);
      b := Machine(c.parser.(nread := c.parser.nread + 2, st := ValueLws), Deliver(c.ctx, ValueData, ""));
      ReadOn(m, k + ": " + v, c, CRLF, b);
    }
  }

  /** The headers that say something about framing or the connection, and all others. */
  datatype Line =
    | Coding(name: string, items: seq<string>, gaps: seq<string>)
    | Connecting(name: string, items: seq<string>, gaps: seq<string>)
    | Upgrading(name: string, value: string)
    | Length(name: string, n: nat)
    | Other(name: string, value: string)

  predicate LineOk(l: Line)
  {
    TokenName(l.name) &&
    match l
    case Coding(k, items, gaps) => LowerName(k) == TRANSFER_ENCODING && ListOk(items, gaps)
    case Connecting(k, items, gaps) => (LowerName(k) == CONNECTION || LowerName(k) == PROXY) && ListOk(items, gaps)
    case Upgrading(k, v) => LowerName(k) == UPGRADE && PlainValue(v) && v != ""
    case Length(k, n) => LowerName(k) == CONTENT_LENGTH && n <= MAX_LENGTH
    case Other(k, v) =>
      PlainValue(v) && LowerName(k) != CONTENT_LENGTH && LowerName(k) != UPGRADE && LowerName(k) != CONNECTION
      && LowerName(k) != PROXY && !(TRANSFER_ENCODING <= LowerName(k))
  }

  function HeaderOf(l: Line): Header
    requires LineOk(l)
  {
    match l
    case Coding(k, items, gaps) => (k, ListText(items, gaps))
    case Connecting(k, items, gaps) => (k, ListText(items, gaps))
    case Upgrading(k, v) => (k, v)
    case Length(k, n) => (k, Decimal(n))
    case Other(k, v) => (k, v)
  }

  /** What a message's headers have said so far. */
  datatype Framing = Framing(te: bool, flags: Flags, length: nat)

  function FramingOf(p: Parser): Framing { Framing(p.te, p.flags, p.contentLength) }

  /** What a line adds to that. */
  function Effect(f: Framing, l: Line): Framing
    requires LineOk(l)
  {
    match l
    case Coding(_, items, gaps) => f.(te := true, flags := f.flags.(chunked := f.flags.chunked || EndsChunked(items, gaps)))
    case Connecting(_, items, gaps) => f.(flags := Connected(f.flags, items, gaps))
    case Upgrading(_, _) => f.(flags := f.flags.(upgrade := true))
    case Length(_, n) => f.(flags := f.flags.(contentLength := true), length := n)
    case Other(_, _) => f
  }

  predicate EndsChunked(items: seq<string>, gaps: seq<string>)
    requires ListOk(items, gaps)
  {
    LookAt(Codings, items, gaps).Live? && SmallAll(items[|items| - 1]) == "chunked"
  }

  function Connected(f: Flags, items: seq<string>, gaps: seq<string>): Flags
    requires ListOk(items, gaps)
  {
    f.(close := f.close || Seen(Options, items, gaps, "close"), keepAlive := f.keepAlive || Seen(Options, items, gaps, "keep-alive"),
       connUpgrade := f.connUpgrade || Seen(Options, items, gaps, "upgrade"))
  }

  // the values

  lemma {:induction false} ListIsPlain(items: seq<string>, gaps: seq<string>)
    requires ListOk(items, gaps)
    ensures PlainValue(ListText(items, gaps)) && ListText(items, gaps) != ""
    decreases |gaps|
  {
    hide IsHeaderChar;
    var t := items[|items| - 1];
    TokenIsPlain(t);
    if gaps != [] {
      ListIsPlain(items[..|items| - 1], gaps[..|gaps| - 1]);
      GapIsPlain(gaps[|gaps| - 1]);
    }
  }

  lemma TokenIsPlain(t: string)
    requires TokenName(t)
    ensures PlainValue(t) && t != ""
  {
    forall i | 0 <= i < |t|
      ensures PlainByte(t[i]) && t[i] != ' ' && t[i] != TAB
    {
      assert Token(t[i]) != '\0';
    }
  }

  lemma GapIsPlain(g: string)
    requires Gap(g)
    ensures PlainBytes(g) && PlainByte(',')
  {
  }

  lemma {:induction false} GeneralFold(q: Parser, s: string)
    requires q.hs.General?
    ensures Fold(q, s) == Option.Some(q)
  {
    if s != "" { GeneralFold(q, s[..|s| - 1]); }
  }

  // the names

  lemma CodingState(p: Parser, te: bool)
    requires NameKnown(p, TRANSFER_ENCODING, te)
    ensures p.hs.TransferEncoding? && p.te
  {
    assert TRANSFER_ENCODING <= TRANSFER_ENCODING && TRANSFER_ENCODING[0] == 't';
    FirstLetters(TRANSFER_ENCODING);
    if MatchesName(p.hs) { WordLetters(p.hs); }
  }

  lemma ConnectionState(p: Parser, t: string, te: bool)
    requires NameKnown(p, t, te) && (t == CONNECTION || t == PROXY)
    ensures p.hs.Connection? && p.te == te
  {
    assert t <= t && t[0] != 't';
    OtherStart(t);
    FirstLetters(t);
    if MatchesName(p.hs) { WordLetters(p.hs); }
  }

  lemma UpgradeState(p: Parser, te: bool)
    requires NameKnown(p, UPGRADE, te)
    ensures p.hs.Upgrade? && p.te == te
  {
    assert UPGRADE <= UPGRADE && UPGRADE[0] == 'u';
    OtherStart(UPGRADE);
    FirstLetters(UPGRADE);
    if MatchesName(p.hs) { WordLetters(p.hs); }
  }

  /** A name that says nothing about framing or the connection leaves a matcher state that does neither. */
  lemma OtherState(p: Parser, t: string, te: bool)
    requires NameKnown(p, t, te) && t != CONTENT_LENGTH && t != UPGRADE && t != CONNECTION && t != PROXY && !(TRANSFER_ENCODING <= t)
    ensures p.te == te && SaysNothing(p.hs)
  {
    assert TRANSFER_ENCODING <= TRANSFER_ENCODING;
    hide Word;
  }

  predicate SaysNothing(hs: HeaderState) {
    MatchesName(hs) || hs.C? || hs.CO? || hs.CON? || hs.General?
  }

  // the lines

  /** Where reading a line has to lead. */
  predicate LineRuns(m: Machine, b: Machine, l: Line)
    requires LineOk(l)
  {
    LineDone(m, b, HeaderOf(l)) && FramingOf(Settle(b).parser) == Effect(FramingOf(m.parser), l)
  }

  /** A line whose value the matcher read as `r`. */
  lemma ValueLineDone(m: Machine, q: Parser, r: Parser, b: Machine, h: Header)
    requires q == m.parser.(st := DiscardWs, hs := q.hs, index := q.index, te := q.te, nread := q.nread)
    requires r == q.(st := r.st, hs := r.hs, index := r.index, flags := r.flags, contentLength := r.contentLength)
    requires b.parser == r.(nread := b.parser.nread, st := ValueLws) && Settle(b).ctx == AfterHeader(m.ctx, h.0, h.1)
    requires b.parser.nread == m.parser.nread + |HeaderText(h)|
    ensures LineDone(m, b, h)
    ensures FramingOf(Settle(b).parser) == Framing(q.te, FinishHeader(r).flags, r.contentLength)
  {
  }

  lemma {:induction false} CodingFlags(f: Flags, items: seq<string>, gaps: seq<string>)
    requires |items| == |gaps| + 1 && forall i | 0 <= i < |items| :: items[i] != ""
    ensures FlagsSoFar(Codings, f, items, gaps) == f
    decreases |gaps|
  {
    if gaps != [] { CodingFlags(f, items[..|items| - 1], gaps[..|gaps| - 1]); }
  }

  lemma CodingLine(m: Machine, l: Line) returns (b: Machine)
    requires LineOk(l) && l.Coding? && m.parser.st.FieldStart? && Ready(m.ctx)
    requires m.parser.nread + |HeaderText(HeaderOf(l))| <= MAX_HEADER_SIZE
    ensures Reads(m, HeaderText(HeaderOf(l)), b) && LineRuns(m, b, l)
  {
    hide Run, NameKnown, Reads, Reading, PlainValue, Settle, AtItem, LookAt, FinishHeader, LineDone, ListText, SmallAll;
    var (k, items, gaps) := (l.name, l.items, l.gaps);
    var h := HeaderOf(l);
    ListIsPlain(items, gaps);
    var q;
    q, b := ValueLine(m, h);
    CodingState(q, m.parser.te);
    ListReads(Codings, q, items, gaps);
    var r := Reading(q, h.1).value;
    CodingFlags(q.flags, items, gaps);
    ListEnds(Codings, q.flags, items, gaps, r);
    ValueLineDone(m, q, r, b, h);
  }

  lemma ConnectingLine(m: Machine, l: Line) returns (b: Machine)
    requires LineOk(l) && l.Connecting? && m.parser.st.FieldStart? && Ready(m.ctx)
    requires m.parser.nread + |HeaderText(HeaderOf(l))| <= MAX_HEADER_SIZE
    ensures Reads(m, HeaderText(HeaderOf(l)), b) && LineRuns(m, b, l)
  {
    hide Run, NameKnown, Reads, Reading, PlainValue, Settle, AtItem, LookAt, FinishHeader, LineDone, ListText, SmallAll, Seen, FlagsSoFar;
    var (k, items, gaps) := (l.name, l.items, l.gaps);
    var h := HeaderOf(l);
    ListIsPlain(items, gaps);
    var q;
    q, b := ValueLine(m, h);
    ConnectionState(q, LowerName(k), m.parser.te);
    ListReads(Options, q, items, gaps);
    var r := Reading(q, h.1).value;
    ListEnds(Options, q.flags, items, gaps, r);
    OptionsSeen(q.flags, items, gaps);
    ValueLineDone(m, q, r, b, h);
  }

  lemma UpgradeReads(q: Parser, v: string)
    requires v != "" && q.hs.Upgrade?
    ensures Reading(q, v) == Option.Some(q.(st := Value, index := 0, hs := General, flags := q.flags.(upgrade := true)))
    ensures FinishHeader(Reading(q, v).value).flags == q.flags.(upgrade := true)
  {
    GeneralFold(OnValueStart(q, v[0]).parser, v[1..]);
  }

  lemma OtherReads(q: Parser, v: string)
    requires v != "" && SaysNothing(q.hs)
    ensures Reading(q, v) == Option.Some(q.(st := Value, index := 0, hs := General))
    ensures FinishHeader(Reading(q, v).value).flags == q.flags
  {
    GeneralFold(OnValueStart(q, v[0]).parser, v[1..]);
  }

  lemma UpgradingLine(m: Machine, l: Line) returns (b: Machine)
    requires LineOk(l) && l.Upgrading? && m.parser.st.FieldStart? && Ready(m.ctx)
    requires m.parser.nread + |HeaderText(HeaderOf(l))| <= MAX_HEADER_SIZE
    ensures Reads(m, HeaderText(HeaderOf(l)), b) && LineRuns(m, b, l)
  {
    hide Run, NameKnown, Reads, Reading, PlainValue, Settle, FinishHeader, LineDone;
    var h := HeaderOf(l);
    var q;
    q, b := ValueLine(m, h);
    UpgradeState(q, m.parser.te);
    UpgradeReads(q, h.1);
    ValueLineDone(m, q, Reading(q, h.1).value, b, h);
  }

  lemma OtherLine(m: Machine, l: Line) returns (b: Machine)
    requires LineOk(l) && l.Other? && m.parser.st.FieldStart? && Ready(m.ctx)
    requires m.parser.nread + |HeaderText(HeaderOf(l))| <= MAX_HEADER_SIZE
    ensures Reads(m, HeaderText(HeaderOf(l)), b) && LineRuns(m, b, l)
  {
    hide Run, NameKnown, Reads, Reading, PlainValue, Settle, FinishHeader, LineDone, SaysNothing, LowerName;
    var h := HeaderOf(l);
    if h.1 == "" {
      b := EmptyLine(m, h);
    } else {
      var q;
      q, b := ValueLine(m, h);
      OtherState(q, LowerName(h.0), m.parser.te);
      OtherReads(q, h.1);
      ValueLineDone(m, q, Reading(q, h.1).value, b, h);
    }
  }

  lemma EmptyLine(m: Machine, h: Header) returns (b: Machine)
    requires m.parser.st.FieldStart? && Ready(m.ctx) && TokenName(h.0) && h.1 == "" && m.parser.nread + |HeaderText(h)| <= MAX_HEADER_SIZE
    requires LowerName(h.0) != CONTENT_LENGTH && LowerName(h.0) != UPGRADE && LowerName(h.0) != CONNECTION && LowerName(h.0) != PROXY
    requires !(TRANSFER_ENCODING <= LowerName(h.0))
    ensures Reads(m, HeaderText(h), b) && LineDone(m, b, h) && FramingOf(Settle(b).parser) == FramingOf(m.parser)
  {
    hide Run, OnFieldData, NameKnown, Deliver, TokenName, Reads, LowerName;
    var k := h.0;
    var q := NamePart(m, k);
    OtherState(q, LowerName(k), m.parser.te);
    NamedValue(m.ctx, k, "");
    var a := Machine(q, OnFieldData(m.ctx, k));
    EmptyLineEnds(a);
    b := On(a, 2, DiscardLws);
    ReadOn(m, k + ": ", a, CRLF, b);
    assert HeaderText(h) == k + ": " + CRLF;
  }

  lemma LengthLineRuns(m: Machine, l: Line) returns (b: Machine)
    requires LineOk(l) && l.Length? && m.parser.st.FieldStart? && Ready(m.ctx) && !m.parser.flags.contentLength
    requires m.parser.nread + |HeaderText(HeaderOf(l))| <= MAX_HEADER_SIZE
    ensures Reads(m, HeaderText(HeaderOf(l)), b) && LineRuns(m, b, l)
  {
    hide Run, OnFieldData, NameKnown, Deliver, TokenName, FinishHeader, Reads, LowerName, Settle, LineDone, Decimal;
    var (k, n) := (l.name, l.n);
    var h := HeaderOf(l);
    var v := Decimal(n);
    var q := NamePart(m, k);
    LengthState(q, m.parser.te);
    NamedValue(m.ctx, k, v);
    var a := Machine(q, OnFieldData(m.ctx, k));
    LengthRead(a, n);
    var r := a.parser.(st := Value, index := 0, flags := a.parser.flags.(contentLength := true), contentLength := n,
                       hs := ContentLengthNum, nread := a.parser.nread + |v|);
    var c := Machine(r, Deliver(a.ctx, ValueData, v));
    ReadsIs(a, v, c);
    ReadOn(m, k + ": ", a, v, c);
    ValueLineEnds(c);
    b := Machine(r.(nread := r.nread + 2, st := ValueLws), Deliver(c.ctx, ValueData, ""));
    ReadOn(m, k + ": " + v, c, CRLF, b);
    SettledCtx(b);
    LengthFinishes(r);
    ValueLineDone(m, q, r.(nread := q.nread), b, h);
    LengthFinishes(r.(nread := q.nread));
  }

  lemma SettledCtx(b: Machine)
    requires b.parser.st.ValueLws?
    ensures Settle(b).ctx == b.ctx
  {
  }

  lemma LengthFinishes(r: Parser)
    requires r.hs.ContentLengthNum?
    ensures FinishHeader(r).flags == r.flags
  {
  }

  /** Any line. */
  lemma LineRun(m: Machine, l: Line) returns (b: Machine)
    requires LineOk(l) && m.parser.st.FieldStart? && Ready(m.ctx) && (l.Length? ==> !m.parser.flags.contentLength)
    requires m.parser.nread + |HeaderText(HeaderOf(l))| <= MAX_HEADER_SIZE
    ensures Reads(m, HeaderText(HeaderOf(l)), b) && LineRuns(m, b, l)
  {
    hide Reads, LineRuns, HeaderOf, LineOk, Ready;
    match l
    case Coding(_, _, _) => b := CodingLine(m, l);
    case Connecting(_, _, _) => b := ConnectingLine(m, l);
    case Upgrading(_, _) => b := UpgradingLine(m, l);
    case Length(_, _) => b := LengthLineRuns(m, l);
    case Other(_, _) => b := OtherLine(m, l);
  }

  // ------------------------------------------------------------------ the header block

  predicate LinesOk(ls: seq<Line>) { forall i | 0 <= i < |ls| :: LineOk(ls[i]) }

  function HeadersOf(ls: seq<Line>): (hs: seq<Header>)
    requires LinesOk(ls)
    ensures |hs| == |ls|
  {
    seq(|ls|, i requires 0 <= i < |ls| => HeaderOf(ls[i]))
  }

  /** What all the lines together say. */
  function Effects(f: Framing, ls: seq<Line>): Framing
    requires LinesOk(ls)
  {
    if ls == [] then f else Effect(Effects(f, ls[..|ls| - 1]), ls[|ls| - 1])
  }

  /** At most one Content-Length. */
  predicate OneLength(ls: seq<Line>) { forall i, j | 0 <= i < j < |ls| :: !(ls[i].Length? && ls[j].Length?) }

  predicate BlockRuns(m: Machine, b: Machine, ls: seq<Line>)
    requires LinesOk(ls)
  {
    var a := Settle(b);
    && (b.parser.st.DiscardLws? ==> !b.parser.hs.ContentLength?)
    && a.ctx == AfterHeaders(m.ctx, HeadersOf(ls)) && Ready(a.ctx) && a.parser.st.FieldStart? && SameMessage(m.parser, a.parser)
    && a.parser.nread == m.parser.nread + |HeadersText(HeadersOf(ls))|
    && FramingOf(a.parser) == Effects(FramingOf(m.parser), ls)
  }

  lemma {:induction false} NoLength(f: Framing, ls: seq<Line>)
    requires LinesOk(ls) && !f.flags.contentLength && forall i | 0 <= i < |ls| :: !ls[i].Length?
    ensures !Effects(f, ls).flags.contentLength
  {
    if ls != [] { NoLength(f, ls[..|ls| - 1]); }
  }

  lemma SameMessageJoin(p: Parser, q: Parser, r: Parser)
    requires SameMessage(p, q) && SameMessage(q, r)
    ensures SameMessage(p, r) && SameMessage(p, p)
  {
  }

  lemma BlockEmpty(m: Machine)
    requires m.parser.st.FieldStart? && Ready(m.ctx)
    ensures Reads(m, HeadersText(HeadersOf([])), m) && BlockRuns(m, m, [])
  {
    Empty(m);
    assert HeadersOf([]) == [];
  }

  lemma {:induction false} BlockRun(m: Machine, ls: seq<Line>) returns (b: Machine)
    requires LinesOk(ls) && OneLength(ls) && m.parser.st.FieldStart? && Ready(m.ctx) && !m.parser.flags.contentLength
    requires m.parser.nread + |HeadersText(HeadersOf(ls))| <= MAX_HEADER_SIZE
    ensures Reads(m, HeadersText(HeadersOf(ls)), b) && BlockRuns(m, b, ls)
    decreases |ls|
  {
    if ls == [] {
      b := m;
      BlockEmpty(m);
    } else {
      var init, l := ls[..|ls| - 1], ls[|ls| - 1];
      BlockGrows(ls);
      var a := BlockRun(m, init);
      if l.Length? { NoLength(FramingOf(m.parser), init); }
      hide Run, Reads, HeaderOf, LineOk, LineDone, Effects, Effect, HeadersText, HeaderText;
      b := LineRun(Settle(a), l);
      BlockJoins(m, a, b, ls);
    }
  }

  lemma BlockGrows(ls: seq<Line>)
    requires LinesOk(ls) && ls != []
    ensures var hs := HeadersOf(ls); var n := |ls| - 1;
      hs == HeadersOf(ls[..n]) + [HeaderOf(ls[n])] && hs[..n] == HeadersOf(ls[..n]) && hs[n] == HeaderOf(ls[n])
      && HeadersText(hs) == HeadersText(hs[..n]) + HeaderText(hs[n])
  {
  }

  lemma BlockJoins(m: Machine, a: Machine, b: Machine, ls: seq<Line>)
    requires LinesOk(ls) && ls != []
    requires var init, l := ls[..|ls| - 1], ls[|ls| - 1];
      Reads(m, HeadersText(HeadersOf(init)), a) && BlockRuns(m, a, init)
      && Reads(Settle(a), HeaderText(HeaderOf(l)), b) && LineRuns(Settle(a), b, l)
    ensures Reads(m, HeadersText(HeadersOf(ls)), b) && BlockRuns(m, b, ls)
  {
    hide Run, Settle, Effect, HeaderOf, HeadersOf, AfterHeader, SameMessage, HeaderText, FramingOf;
    var init, l := ls[..|ls| - 1], ls[|ls| - 1];
    var h, s := HeaderOf(l), Settle(a);
    BlockGrows(ls);
    HeaderToken(l);
    FirstByte(h);
    SettledRun(a, HeaderText(h));
    ReadsAgain(a, s, HeaderText(h), b);
    ReadOn(m, HeadersText(HeadersOf(init)), a, HeaderText(h), b);
    SameMessageJoin(m.parser, s.parser, Settle(b).parser);
    NamedValue(s.ctx, h.0, h.1);
  }

  lemma HeaderToken(l: Line)
    requires LineOk(l)
    ensures TokenName(HeaderOf(l).0) && HeaderOf(l).0 != ""
  {
  }

  lemma ReadsAgain(a: Machine, s: Machine, t: string, b: Machine)
    requires Run(a, t) == Run(s, t) && Reads(s, t, b)
    ensures Reads(a, t, b)
  {
  }

  // ------------------------------------------------------------------ the headers as collected

  /** The multimap that inserting pairs in order gives. */
  function Collected(hs: seq<Header>): seq<Header>
  {
    if hs == [] then [] else Insert(Collected(hs[..|hs| - 1]), hs[|hs| - 1].0, hs[|hs| - 1].1)
  }

  /** Whatever the order of the lines, the consumer ends with all pairs inserted in that order. */
  lemma {:induction false} HeadersCollected(c: Ctx, hs: seq<Header>)
    requires Ready(c) && c.field == "" && c.headers == [] && hs != [] && forall h | h in hs :: h.0 != ""
    ensures var a := AfterHeaders(c, hs);
      && a.url == c.url && a.status == c.status && a.body == c.body && a.recv == c.recv && a.completions == c.completions
      && Ready(a) && (a.field, a.value) == hs[|hs| - 1] && a.headers == Collected(hs[..|hs| - 1])
  {
    var init, h := hs[..|hs| - 1], hs[|hs| - 1];
    assert h in hs && "" + h.0 == h.0;
    if init == [] {
      assert AfterHeaders(c, init) == c;
    } else {
      assert forall x | x in init :: x in hs;
      HeadersCollected(c, init);
      assert hs[|hs| - 2] == init[|init| - 1];
    }
    hide Insert;
  }

  /** The multimap is sorted and holds exactly the pairs. */
  lemma {:induction false} CollectedAll(hs: seq<Header>)
    ensures Sorted(Collected(hs)) && multiset(Collected(hs)) == multiset(hs)
  {
    hide Less, Insert, Sorted;
    if hs == [] {
      NothingSorted();
    } else {
      var init, h := hs[..|hs| - 1], hs[|hs| - 1];
      CollectedAll(init);
      InsertKeepsOrder(Collected(init), h.0, h.1);
      InsertAddsOne(Collected(init), h.0, h.1);
      assert hs == init + [h];
    }
  }

  lemma NothingSorted()
    ensures Sorted([])
  {
  }

  // ------------------------------------------------------------------ the end of the headers

  /** A request that stays with HTTP. */
  predicate StaysHttp(p: Parser) {
    p.kind.Request? && !p.lenient && !p.verb.CONNECT? && !p.flags.trailing && !(p.flags.upgrade && p.flags.connUpgrade)
  }

  /** What the empty line decides, from what the headers said. */
  lemma EndDecides(p: Parser)
    requires p.st.HeadersAlmostDone? && StaysHttp(p)
    ensures var q := p.(nread := 0, upgrade := false);
      Switch(p, LF) ==
        if p.te && p.flags.contentLength then Fail(UnexpectedContentLength)
        else if p.flags.chunked then Go(q.(st := ChunkSizeStart), [HeadersComplete])
        else if p.te then Fail(InvalidTransferEncoding)
        else if p.contentLength == 0 || p.contentLength == ULLONG_MAX then Go(NewMessage(q), [HeadersComplete, MessageComplete])
        else Go(q.(st := BodyIdentity), [HeadersComplete])
  {
    hide NewMessage;
    assert [HeadersComplete] + [MessageComplete] == [HeadersComplete, MessageComplete] && [HeadersComplete] + [] == [HeadersComplete];
  }

  /** After the empty line. */
  function Ended(m: Machine): Result
    requires StaysHttp(m.parser)
  {
    var p, q, c := m.parser, m.parser.(nread := 0, upgrade := false), OnHeadersComplete(m.ctx);
    if p.te && p.flags.contentLength then Failed
    else if p.flags.chunked then Done(Machine(q.(st := ChunkSizeStart), c))
    else if p.te then Failed
    else if p.contentLength == 0 || p.contentLength == ULLONG_MAX then Done(Machine(NewMessage(q), OnMessageComplete(c)))
    else Done(Machine(q.(st := BodyIdentity), c))
  }

  lemma EndedByLf(m: Machine)
    requires m.parser.st.HeadersAlmostDone? && m.parser.nread < MAX_HEADER_SIZE && StaysHttp(m.parser)
    ensures One(m, LF) == Ended(m)
  {
    hide Switch, NewMessage, OnMessageComplete, OnHeadersComplete;
    EndDecides(Counted(m.parser));
    assert [HeadersComplete, MessageComplete][1..] == [MessageComplete] && [MessageComplete][1..] == [] && [HeadersComplete][1..] == [];
    assert Perform(OnHeadersComplete(m.ctx), None, [MessageComplete], LF) == OnMessageComplete(OnHeadersComplete(m.ctx));
    assert Counted(m.parser).(nread := 0, upgrade := false) == m.parser.(nread := 0, upgrade := false);
  }

  lemma NewMessageFrom(p: Parser, q: Parser)
    requires q == p.(st := q.st)
    ensures NewMessage(p) == NewMessage(q)
  {
  }

  /** The empty line, from the start of a line. */
  lemma EndRuns(m: Machine)
    requires m.parser.st.FieldStart? && m.parser.nread + 2 <= MAX_HEADER_SIZE && StaysHttp(m.parser)
    ensures Run(m, CRLF) == (match Ended(m) case Done(a) => Done(a) case _ => Failed)
  {
    hide One, Run, OnMessageComplete, OnHeadersComplete, NewMessage;
    EndCr(m);
    var a := On(m, 1, HeadersAlmostDone);
    ReadOne(m, CR, a);
    EndedByLf(a);
    assert [CR] + [LF] == CRLF;
    ReadsRun(m, [CR], a);
    RunOne(m, [CR], LF);
    var p := m.parser.(nread := 0, upgrade := false);
    NewMessageFrom(p, p.(st := HeadersAlmostDone));
  }

  lemma ReadsRun(m: Machine, s: string, a: Machine)
    requires Reads(m, s, a)
    ensures Run(m, s) == Done(a)
  {
  }

  // ------------------------------------------------------------------ whole requests

  const NOTHING := Framing(false, NO_FLAGS, ULLONG_MAX)

  function HeadText(top: Top, ls: seq<Line>): string
    requires TopOk(top) && LinesOk(ls)
  {
    TopText(top) + HeadersText(HeadersOf(ls)) + CRLF
  }

  /** A head that can be sent: a method that can be printed, a URL that is taken, lines, within the limit. */
  predicate Sendable(top: Top, ls: seq<Line>)
  {
    TopOk(top) && ls != [] && LinesOk(ls) && OneLength(ls) && |HeadText(top, ls)| <= MAX_HEADER_SIZE
  }

  /** The headers do not ask for another protocol. */
  predicate NoUpgrade(f: Framing) { !(f.flags.upgrade && f.flags.connUpgrade) }

  /** The parser and the consumer behind the last header line. */
  predicate AtHeadEnd(p: Parser, c: Ctx, top: Top, ls: seq<Line>)
    requires LinesOk(ls) && ls != []
  {
    var hs := HeadersOf(ls);
    && p.st.FieldStart? && p.kind.Request? && !p.lenient && p.verb == top.verb && p.major == top.major && p.minor == top.minor
    && FramingOf(p) == Effects(NOTHING, ls) && !p.flags.trailing
    && c.url == top.url && c.body == "" && c.recv && c.completions == 0
    && Insert(c.headers, c.field, c.value) == Collected(hs) && Ready(c) && (c.field, c.value) == hs[|hs| - 1]
  }

  lemma EffectKeepsTrailing(f: Framing, l: Line)
    requires LineOk(l)
    ensures Effect(f, l).flags.trailing == f.flags.trailing
  {
    hide Seen, LookAt, EndsChunked, TokenName, LowerName, PlainValue, SmallAll, ListText, Decimal;
  }

  lemma {:induction false} EffectsKeepTrailing(f: Framing, ls: seq<Line>)
    requires LinesOk(ls)
    ensures Effects(f, ls).flags.trailing == f.flags.trailing
  {
    hide Effect;
    if ls != [] {
      EffectsKeepTrailing(f, ls[..|ls| - 1]);
      EffectKeepsTrailing(Effects(f, ls[..|ls| - 1]), ls[|ls| - 1]);
    }
  }

  lemma HeadRuns(top: Top, ls: seq<Line>) returns (p: Parser, c: Ctx)
    requires Sendable(top, ls)
    ensures AtHeadEnd(p, c, top, ls)
    ensures p.nread + 2 <= MAX_HEADER_SIZE
    ensures StaysHttp(p) ==>
      Run(Machine(Fresh(Request), NEW_CTX), HeadText(top, ls)) == (match Ended(Machine(p, c)) case Done(a) => Done(a) case _ => Failed)
  {
    hide One, Run, TopOk, TopText, HeadersText, HeadersOf, LineOk, StaysHttp, Ended, Reads, BlockRuns, FramingOf;
    var m := Machine(Fresh(Request), NEW_CTX);
    var line, hs := TopText(top), HeadersOf(ls);
    TopRun(m, top);
    var a := Machine(Clean(m.parser).(verb := top.verb, index := |Name(top.verb)| + 1, major := top.major, minor := top.minor, st := FieldStart, nread := |line|),
                     m.ctx.(url := top.url));
    assert "" + top.url == top.url;
    FreshIsNothing(a.parser);
    var b := BlockRun(a, ls);
    var s := Settle(b);
    p, c := s.parser, s.ctx;
    BlockTells(a, b, ls);
    EffectsKeepTrailing(NOTHING, ls);
    FirstsNonempty(ls);
    HeadersCollected(a.ctx, hs);
    ReadOn(m, line, a, HeadersText(hs), b);
    ReadsRun(m, line + HeadersText(hs), b);
    if StaysHttp(p) {
      SettledRun(b, CRLF);
      EndRuns(s);
      RunJoin(m, line + HeadersText(hs), CRLF);
      EndedNotLeft(s);
    }
  }

  lemma EndedNotLeft(m: Machine)
    requires StaysHttp(m.parser)
    ensures !Ended(m).Left?
  {
  }

  lemma FreshIsNothing(p: Parser)
    requires p.kind.Request? && p.te == false && p.flags == NO_FLAGS && p.contentLength == ULLONG_MAX
    ensures FramingOf(p) == NOTHING && !p.flags.contentLength && !NO_FLAGS.trailing
  {
  }

  lemma BlockTells(a: Machine, b: Machine, ls: seq<Line>)
    requires LinesOk(ls) && BlockRuns(a, b, ls) && FramingOf(a.parser) == NOTHING
    ensures var s := Settle(b);
      s.parser.st.FieldStart? && s.parser.kind == a.parser.kind && s.parser.lenient == a.parser.lenient && s.parser.verb == a.parser.verb
      && s.parser.major == a.parser.major && s.parser.minor == a.parser.minor && FramingOf(s.parser) == Effects(NOTHING, ls)
      && s.parser.flags == Effects(NOTHING, ls).flags && s.ctx == AfterHeaders(a.ctx, HeadersOf(ls))
      && s.parser.nread == a.parser.nread + |HeadersText(HeadersOf(ls))| && (b.parser.st.DiscardLws? ==> !b.parser.hs.ContentLength?)
  {
  }

  lemma FirstsNonempty(ls: seq<Line>)
    requires LinesOk(ls)
    ensures forall h | h in HeadersOf(ls) :: h.0 != ""
  {
    forall i | 0 <= i < |ls| ensures HeadersOf(ls)[i].0 != "" { HeaderToken(ls[i]); }
  }

  /** Whether the connection goes on after a message: section 6.3 of RFC 7230 for versions 1.0 and 1.1. A version with a nought in
      it is treated as 1.0, and any other as 1.1. */
  predicate Persists(major: nat, minor: nat, f: Flags) { if major == 0 || minor == 0 then f.keepAlive else !f.close }

  /** The outcome of a whole request: everything in it arrives, once, and the connection goes on or not, as its version and its
      Connection options have it. */
  predicate Arrives(r: Result, top: Top, ls: seq<Line>, body: string)
    requires LinesOk(ls)
  {
    r.Done? && r.m.parser.verb == top.verb && r.m.ctx.url == top.url && r.m.ctx.headers == Collected(HeadersOf(ls)) && r.m.ctx.body == body
    && !r.m.ctx.recv && r.m.ctx.completions == 1
    && r.m.parser.st == if Persists(top.major, top.minor, Effects(NOTHING, ls).flags) then StartReq else Dead
  }

  lemma CompletesWith(p: Parser, c: Ctx, top: Top, ls: seq<Line>, q: Parser, body: string)
    requires LinesOk(ls) && ls != [] && AtHeadEnd(p, c, top, ls)
    requires q.kind == p.kind && q.verb == p.verb && q.major == p.major && q.minor == p.minor && q.flags.close == p.flags.close && q.flags.keepAlive == p.flags.keepAlive
    ensures Arrives(Completed(q, OnHeadersComplete(c), body), top, ls, body)
  {
    hide Insert, Collected, HeadersOf, Effects;
    assert "" + body == body;
  }

  /** A request whose last coding is "chunked": the body is the chunks put together. */
  lemma ChunkedRequest(top: Top, ls: seq<Line>, chunks: seq<string>)
    requires Sendable(top, ls) && NoUpgrade(Effects(NOTHING, ls))
    requires Effects(NOTHING, ls).flags.chunked && !Effects(NOTHING, ls).flags.contentLength
    requires forall k | 0 <= k < |chunks| :: 0 < |chunks[k]| <= MAX_CHUNK
    ensures Arrives(Run(Machine(Fresh(Request), NEW_CTX), HeadText(top, ls) + ChunkedText(chunks)), top, ls, Joined(chunks))
  {
    hide One, Run, Sendable, Arrives, ChunkedText, HeadText, Effects, Joined;
    assert LinesOk(ls) && ls != [] && TopOk(top) && !top.verb.CONNECT? by { SendableLines(top, ls); }
    var p, c := HeadRuns(top, ls);
    StaysIf(p, c, top, ls);
    var m := Machine(Fresh(Request), NEW_CTX);
    var b := Machine(p.(nread := 0, upgrade := false, st := ChunkSizeStart), OnHeadersComplete(c));
    RunJoin(m, HeadText(top, ls), ChunkedText(chunks));
    ChunkedBody(b, chunks);
    CompletesWith(p, c, top, ls,
      b.parser.(nread := 2, contentLength := 0, flags := b.parser.flags.(trailing := true), st := MessageDone), Joined(chunks));
  }

  lemma SendableLines(top: Top, ls: seq<Line>)
    requires Sendable(top, ls)
    ensures LinesOk(ls) && ls != [] && TopOk(top) && !top.verb.CONNECT?
  {
  }

  lemma StaysIf(p: Parser, c: Ctx, top: Top, ls: seq<Line>)
    requires LinesOk(ls) && ls != [] && AtHeadEnd(p, c, top, ls) && !top.verb.CONNECT? && NoUpgrade(Effects(NOTHING, ls))
    ensures StaysHttp(p) && p.flags == Effects(NOTHING, ls).flags && p.te == Effects(NOTHING, ls).te
      && p.contentLength == Effects(NOTHING, ls).length
  {
    hide Effects, Collected, Insert, HeadersOf;
  }

  /** A request with no transfer coding: the body is what the length says, and there is none without a length. */
  lemma SizedRequest(top: Top, ls: seq<Line>, body: string)
    requires Sendable(top, ls) && NoUpgrade(Effects(NOTHING, ls))
    requires !Effects(NOTHING, ls).te && !Effects(NOTHING, ls).flags.chunked
    requires |body| == if Effects(NOTHING, ls).length == ULLONG_MAX then 0 else Effects(NOTHING, ls).length
    ensures Arrives(Run(Machine(Fresh(Request), NEW_CTX), HeadText(top, ls) + body), top, ls, body)
  {
    hide One, Run, Sendable, Arrives, HeadText, Effects;
    assert LinesOk(ls) && ls != [] && TopOk(top) && !top.verb.CONNECT? by { SendableLines(top, ls); }
    var p, c := HeadRuns(top, ls);
    StaysIf(p, c, top, ls);
    var m := Machine(Fresh(Request), NEW_CTX);
    RunJoin(m, HeadText(top, ls), body);
    var q := p.(nread := 0, upgrade := false);
    if body == "" {
      var b := Machine(NewMessage(q), OnMessageComplete(OnHeadersComplete(c)));
      Empty(b);
      CompletesWith(p, c, top, ls, q, "");
      NoBody(OnHeadersComplete(c));
    } else {
      var b := Machine(q.(st := BodyIdentity), OnHeadersComplete(c));
      IdentityBody(b, body);
      CompletesWith(p, c, top, ls, b.parser.(contentLength := 0, st := MessageDone), body);
    }
  }

  lemma NoBody(c: Ctx)
    ensures c.(body := c.body + "") == c
  {
    assert c.body + "" == c.body;
  }

  /** A transfer coding whose last is not "chunked", or one beside a Content-Length, is refused at the end of the head. */
  lemma BadCodingRefused(top: Top, ls: seq<Line>, rest: string)
    requires Sendable(top, ls) && NoUpgrade(Effects(NOTHING, ls)) && Effects(NOTHING, ls).te
    requires !Effects(NOTHING, ls).flags.chunked || Effects(NOTHING, ls).flags.contentLength
    ensures Run(Machine(Fresh(Request), NEW_CTX), HeadText(top, ls) + rest).Failed?
  {
    hide One, Run, Sendable, HeadText, Effects;
    assert LinesOk(ls) && ls != [] && TopOk(top) && !top.verb.CONNECT? by { SendableLines(top, ls); }
    var p, c := HeadRuns(top, ls);
    StaysIf(p, c, top, ls);
    RunJoin(Machine(Fresh(Request), NEW_CTX), HeadText(top, ls), rest);
  }

  // ------------------------------------------------------------------ what a head says

  predicate EndsItChunked(l: Line)
    requires LineOk(l)
  {
    l.Coding? && EndsChunked(l.items, l.gaps)
  }

  predicate Asks(l: Line, w: string)
    requires LineOk(l)
  {
    l.Connecting? && Seen(Options, l.items, l.gaps, w)
  }

  /** Line by line: there is a transfer coding if some line names one, it is chunked if such a line ends in "chunked", the
      connection is to be closed if some Connection line asks for it, and so on. */
  lemma {:induction false} EffectsTell(ls: seq<Line>)
    requires LinesOk(ls)
    ensures var f := Effects(NOTHING, ls);
      && (f.te <==> exists i: nat :: i < |ls| && ls[i].Coding?)
      && (f.flags.chunked <==> exists i: nat :: i < |ls| && EndsItChunked(ls[i]))
      && (f.flags.close <==> exists i: nat :: i < |ls| && Asks(ls[i], "close"))
      && (f.flags.keepAlive <==> exists i: nat :: i < |ls| && Asks(ls[i], "keep-alive"))
      && (f.flags.connUpgrade <==> exists i: nat :: i < |ls| && Asks(ls[i], "upgrade"))
      && (f.flags.upgrade <==> exists i: nat :: i < |ls| && ls[i].Upgrading?)
      && (f.flags.contentLength <==> exists i: nat :: i < |ls| && ls[i].Length?)
  {
    hide Effect, EndsItChunked, Asks, LineOk;
    if ls != [] {
      var init, n := ls[..|ls| - 1], |ls| - 1;
      EffectsTell(init);
      EffectTells(Effects(NOTHING, init), ls[n]);
      assert forall i: nat :: i < n ==> init[i] == ls[i];
    }
  }

  /** The length is the one that the one Content-Length line says. */
  lemma {:induction false} LengthTold(ls: seq<Line>)
    requires LinesOk(ls) && OneLength(ls)
    ensures (forall i | 0 <= i < |ls| :: !ls[i].Length?) ==> Effects(NOTHING, ls).length == ULLONG_MAX
    ensures forall i | 0 <= i < |ls| && ls[i].Length? :: Effects(NOTHING, ls).length == ls[i].n
  {
    hide EndsChunked, Connected;
    if ls != [] {
      var init, l := ls[..|ls| - 1], ls[|ls| - 1];
      LengthTold(init);
      assert forall i | 0 <= i < |init| :: init[i] == ls[i];
    }
  }

  lemma EffectTells(f: Framing, l: Line)
    requires LineOk(l)
    ensures var g := Effect(f, l);
      && g.te == (f.te || l.Coding?) && g.flags.chunked == (f.flags.chunked || EndsItChunked(l))
      && g.flags.close == (f.flags.close || Asks(l, "close")) && g.flags.keepAlive == (f.flags.keepAlive || Asks(l, "keep-alive"))
      && g.flags.connUpgrade == (f.flags.connUpgrade || Asks(l, "upgrade")) && g.flags.upgrade == (f.flags.upgrade || l.Upgrading?)
      && g.flags.contentLength == (f.flags.contentLength || l.Length?)
  {
    hide Seen, EndsChunked;
  }

  // ------------------------------------------------------------------ lists the parser does not see as the standard does

  /** Items that all are looked at: after each comma no tab, no underscore first, and no comma right behind the beginning of
      a word. Then every list is read as section 3.3.1 and section 6.1 of RFC 7230 have it. */
  predicate Ordinary(list: List, items: seq<string>, gaps: seq<string>)
    requires ListOk(items, gaps)
  {
    (forall i | 0 <= i < |gaps| :: TAB !in gaps[i] && items[i + 1][0] != '_')
    && forall i | 0 <= i < |items| - 1 :: !Swallows(list, items[i])
  }

  lemma {:induction false} OrdinaryIsLive(list: List, items: seq<string>, gaps: seq<string>)
    requires ListOk(items, gaps) && Ordinary(list, items, gaps)
    ensures LookAt(list, items, gaps).Live?
    decreases |gaps|
  {
    if gaps != [] {
      OrdinaryLess(list, items, gaps);
      OrdinaryIsLive(list, items[..|items| - 1], gaps[..|gaps| - 1]);
      assert items[..|items| - 1][|items| - 2] == items[|items| - 2];
      hide Swallows, LookAt;
      LookStep(list, items, gaps);
    }
  }

  /** In such lists the body is chunked exactly if the last coding is "chunked", and an option counts exactly if it is among
      the items. */
  lemma {:induction false} OrdinaryLists(items: seq<string>, gaps: seq<string>, w: string)
    requires ListOk(items, gaps)
    ensures Ordinary(Codings, items, gaps) ==> (EndsChunked(items, gaps) <==> SmallAll(items[|items| - 1]) == "chunked")
    ensures Ordinary(Options, items, gaps) ==> (Seen(Options, items, gaps, w) <==> Among(items, w))
    decreases |gaps|
  {
    hide LookAt, SmallAll, Swallows, Among;
    if Ordinary(Codings, items, gaps) { OrdinaryIsLive(Codings, items, gaps); }
    if Ordinary(Options, items, gaps) {
      OrdinaryIsLive(Options, items, gaps);
      AmongGrows(items, w);
      if gaps == [] {
        NoneAmong(w);
        assert items[..|items| - 1] == [];
      } else {
        OrdinaryLess(Options, items, gaps);
        OrdinaryLists(items[..|items| - 1], gaps[..|gaps| - 1], w);
      }
    }
  }

  /** Some item is the word, in any letter case. */
  predicate Among(items: seq<string>, w: string) { exists i: nat :: i < |items| && SmallAll(items[i]) == w }

  lemma NoneAmong(w: string)
    ensures !Among([], w)
  {
  }

  lemma AmongGrows(items: seq<string>, w: string)
    requires items != []
    ensures Among(items, w) <==> Among(items[..|items| - 1], w) || SmallAll(items[|items| - 1]) == w
  {
    hide SmallAll;
    var init := items[..|items| - 1];
    if Among(items, w) && SmallAll(items[|items| - 1]) != w {
      var i: nat :| i < |items| && SmallAll(items[i]) == w;
      assert init[i] == items[i];
    }
    if Among(init, w) {
      var i: nat :| i < |init| && SmallAll(init[i]) == w;
      assert init[i] == items[i];
    }
  }

  lemma LookStep(list: List, items: seq<string>, gaps: seq<string>)
    requires ListOk(items, gaps) && gaps != [] && LookAt(list, items[..|items| - 1], gaps[..|gaps| - 1]).Live?
    requires !Swallows(list, items[|items| - 2]) && TAB !in gaps[|gaps| - 1] && items[|items| - 1][0] != '_'
    ensures LookAt(list, items, gaps).Live?
  {
    hide Swallows;
    assert items[..|items| - 1][|items| - 2] == items[|items| - 2];
  }

  lemma OrdinaryLess(list: List, items: seq<string>, gaps: seq<string>)
    requires ListOk(items, gaps) && Ordinary(list, items, gaps) && gaps != []
    ensures ListOk(items[..|items| - 1], gaps[..|gaps| - 1]) && Ordinary(list, items[..|items| - 1], gaps[..|gaps| - 1])
  {
    hide Swallows;
  }

  /** Three lists that end in "chunked" and are not taken so: one with a comma right behind the beginning of that word, one
      with a tab behind the comma, and one that says it twice. */
  lemma NotSeenChunked()
    ensures ListOk(["c", "chunked"], [""]) && !EndsChunked(["c", "chunked"], [""])
    ensures ListOk(["gzip", "chunked"], [[TAB]]) && !EndsChunked(["gzip", "chunked"], [[TAB]])
    ensures ListOk(["chunked", "chunked"], [" "]) && !EndsChunked(["chunked", "chunked"], [" "])
  {
    var c, z, k := "c", "gzip", "chunked";
    SmallWords();
    assert ["c", "chunked"][..1] == ["c"] && ["gzip", "chunked"][..1] == ["gzip"] && ["chunked", "chunked"][..1] == ["chunked"];
    assert [""][..0] == [] && [[TAB]][..0] == [] && [" "][..0] == [];
    assert LookAt(Codings, ["c"], []).Live? && LookAt(Codings, ["gzip"], []).Live? && LookAt(Codings, ["chunked"], []).Live?;
  }

  lemma SmallWords()
    ensures TokenName("c") && TokenName("gzip") && TokenName("chunked") && Gap("") && Gap([TAB]) && Gap(" ")
    ensures Begun(Codings, "c") && Begun(Codings, "chunked") && !Begun(Codings, "gzip")
  {
    assert SmallAll("c") == "c" && SmallAll("chunked") == "chunked" && SmallAll("gzip")[0] == 'g';
    assert "c" <= "chunked";
  }
}
