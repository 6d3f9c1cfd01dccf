/** Reading back printed header lines. */
module HttpHeaderLines {
  import opened HttpAutomaton
  import opened HttpHeaders
  import opened HttpRuns
  import opened HttpConsumer
  import opened HttpRequestLine
  import opened HttpBytes

  // ------------------------------------------------------------------ names

  predicate TokenName(k: string) { k != "" && forall i | 0 <= i < |k| :: Token(k[i]) != '\0' }

  function LowerName(k: string): (r: string)
    ensures |r| == |k|
  {
    seq(|k|, i requires 0 <= i < |k| => Token(k[i]))
  }

  const TRANSFER_ENCODING := "transfer-encoding"
  const CONTENT_LENGTH := "content-length"

  const CONNECTION := "connection"
  const PROXY := "proxy-connection"
  const UPGRADE := "upgrade"

  /** The beginning of a name, or a name, that the parser looks for. */
  predicate Special(t: string)
  {
    t <= CONTENT_LENGTH || t <= TRANSFER_ENCODING || t <= CONNECTION || t <= PROXY || t <= UPGRADE
  }

  /** What the header state knows of a name read so far, in lower case. */
  predicate NameKnown(p: Parser, t: string, te: bool) {
    p.te == (te || TRANSFER_ENCODING <= t) &&
    if MatchesName(p.hs) then
      p.index + 1 == |t| < WordSize(p.hs) && t == Word(p.hs)[..|t|] &&
      (p.hs.MatchingConnection? || p.hs.MatchingContentLength? ==> |t| >= 4)
    else match p.hs
      case C => t == "c" && p.index == 0
      case CO => t == "co" && p.index == 1
      case CON => t == "con" && p.index == 2
      case Connection => t == "connection" || t == "proxy-connection"
      case ContentLength => t == CONTENT_LENGTH
      case TransferEncoding => t == TRANSFER_ENCODING
      case Upgrade => t == "upgrade"
      case General => !Special(t)
      case _ => false
  }

  function FirstNameState(t: char): HeaderState {
    match t
    case 'c' => C
    case 'p' => MatchingProxyConnection
    case 't' => MatchingTransferEncoding
    case 'u' => MatchingUpgrade
    case _ => General
  }

  /** The first letter says which words a name can begin. */
  lemma FirstLetters(t: string)
    requires t != ""
    ensures t <= CONTENT_LENGTH ==> t[0] == 'c'
    ensures t <= CONNECTION ==> t[0] == 'c'
    ensures t <= TRANSFER_ENCODING ==> t[0] == 't'
    ensures t <= PROXY ==> t[0] == 'p'
    ensures t <= UPGRADE ==> t[0] == 'u'
    ensures t <= CONTENT_LENGTH && |t| > 3 ==> t[3] == 't'
    ensures t <= CONNECTION && |t| > 3 ==> t[3] == 'n'
  {
  }

  lemma OtherStart(t: string)
    requires t != "" && t[0] != 't'
    ensures !(TRANSFER_ENCODING <= t)
  {
  }

  lemma NameStarts(p: Parser, t: char)
    requires p.index == 0 && p.hs == FirstNameState(t) && t != '\0'
    ensures NameKnown(p, [t], p.te)
  {
    assert !(TRANSFER_ENCODING <= [t]);
    FirstLetters([t]);
  }

  lemma PrefixGrows(word: string, t: string, c: char)
    ensures word <= t + [c] <==> word <= t || word == t + [c]
    ensures t + [c] <= word <==> t < word && word[|t|] == c
  {
    var u := t + [c];
    if word <= t { assert word <= u; }
    if word <= u && |word| < |u| { assert word == u[..|word|] == t[..|word|]; }
    if t < word && word[|t|] == c { assert u == word[..|u|]; }
    if u <= word { assert t == u[..|t|] == word[..|t|] && word[|t|] == u[|t|]; }
  }

  /** Which words a longer name can still start, or be. */
  lemma WordTells(hs: HeaderState, t: string, c: char)
    requires MatchesName(hs) && 0 < |t| < WordSize(hs) && t == Word(hs)[..|t|]
    requires hs.MatchingConnection? || hs.MatchingContentLength? ==> |t| >= 4
    ensures !(TRANSFER_ENCODING <= t)
    ensures t + [c] == TRANSFER_ENCODING <==> hs.MatchingTransferEncoding? && |t| == 16 && c == 'g'
    ensures Special(t + [c]) ==> c == Word(hs)[|t|]
  {
    var word, u := Word(hs), t + [c];
    PrefixGrows(TRANSFER_ENCODING, t, c);
    PrefixGrows(CONTENT_LENGTH, t, c);
    PrefixGrows(CONNECTION, t, c);
    PrefixGrows(PROXY, t, c);
    PrefixGrows(UPGRADE, t, c);
    FirstLetters(t);
    FirstLetters(u);
    WordLetters(hs);
    assert t[0] == word[0] == u[0];
    if |t| >= 4 { assert t[3] == word[3] == u[3]; }
    if hs.MatchingTransferEncoding? {
      if |t| == 16 { assert t + ['g'] == TRANSFER_ENCODING; }
      if t + [c] == TRANSFER_ENCODING { assert (t + [c])[|t|] == TRANSFER_ENCODING[|t|]; }
    } else {
      OtherStart(t);
      OtherStart(u);
      assert TRANSFER_ENCODING <= TRANSFER_ENCODING;
    }
  }

  lemma WordLetters(hs: HeaderState)
    requires MatchesName(hs)
    ensures Word(hs)[0] == (match hs case MatchingTransferEncoding => 't' case MatchingProxyConnection => 'p' case MatchingUpgrade => 'u' case _ => 'c')
    ensures hs.MatchingContentLength? ==> Word(hs)[3] == 't'
    ensures hs.MatchingConnection? ==> Word(hs)[3] == 'n'
  {
  }

  lemma WordAt(hs: HeaderState)
    ensures hs.MatchingTransferEncoding? ==> Word(hs) == TRANSFER_ENCODING
    ensures hs.MatchingContentLength? ==> Word(hs) == CONTENT_LENGTH
    ensures hs.MatchingConnection? ==> Word(hs) == "connection"
    ensures hs.MatchingProxyConnection? ==> Word(hs) == "proxy-connection"
    ensures hs.MatchingUpgrade? ==> Word(hs) == "upgrade"
    ensures TRANSFER_ENCODING[16] == 'g'
  {
  }

  lemma WordBreaks(p: Parser, t: string, c: char, te: bool)
    requires MatchesName(p.hs) && NameKnown(p, t, te) && c != Word(p.hs)[|t|]
    ensures NameKnown(MatchWord(p, c, General), t + [c], te)
  {
    hide Word;
    WordTells(p.hs, t, c);
    WordAt(p.hs);
    PrefixGrows(TRANSFER_ENCODING, t, c);
    assert MatchWord(p, c, General) == p.(index := p.index + 1, hs := General);
  }

  lemma WordEnds(p: Parser, t: string, c: char, te: bool)
    requires MatchesName(p.hs) && NameKnown(p, t, te) && c == Word(p.hs)[|t|] && |t| + 1 == WordSize(p.hs)
    ensures NameKnown(MatchWord(p, c, General), t + [c], te)
  {
    hide Word;
    assert t + [c] == Word(p.hs);
    WordAt(p.hs);
    var q := MatchWord(p, c, General);
    assert q == p.(index := p.index + 1, hs := Found(p.hs), te := p.te || p.hs.MatchingTransferEncoding?);
    match p.hs
    case MatchingTransferEncoding => WordTells(p.hs, t, c);
    case MatchingConnection => WordTells(p.hs, t, c);
    case MatchingProxyConnection => WordTells(p.hs, t, c);
    case MatchingContentLength => WordTells(p.hs, t, c);
    case MatchingUpgrade => WordTells(p.hs, t, c);
  }

  /** What is known in the midst of a word. */
  predicate Midway(p: Parser, t: string, te: bool) {
    MatchesName(p.hs) && p.te == (te || TRANSFER_ENCODING <= t) && p.index + 1 == |t| < WordSize(p.hs) && t == Word(p.hs)[..|t|]
    && (p.hs.MatchingConnection? || p.hs.MatchingContentLength? ==> |t| >= 4)
  }

  lemma MidwayIs(p: Parser, t: string, te: bool)
    requires MatchesName(p.hs)
    ensures NameKnown(p, t, te) <==> Midway(p, t, te)
  {
    hide Word;
  }

  lemma WordContinues(p: Parser, t: string, c: char, te: bool)
    requires MatchesName(p.hs) && NameKnown(p, t, te) && c == Word(p.hs)[|t|] && |t| + 1 < WordSize(p.hs)
    ensures NameKnown(MatchWord(p, c, General), t + [c], te)
  {
    MidwayIs(p, t, te);
    hide Word, NameKnown;
    WordTells(p.hs, t, c);
    WordAt(p.hs);
    PrefixGrows(TRANSFER_ENCODING, t, c);
    assert t + [c] == Word(p.hs)[..|t| + 1];
    assert MatchWord(p, c, General) == p.(index := p.index + 1);
    MidwayIs(p.(index := p.index + 1), t + [c], te);
  }

  /** A byte against a word, when what came before is the word's start. */
  lemma WordGrows(p: Parser, t: string, c: char, te: bool)
    requires MatchesName(p.hs) && NameKnown(p, t, te)
    ensures NameKnown(MatchWord(p, c, General), t + [c], te)
  {
    hide MatchWord, Word, NameKnown;
    if c != WordByte(p, t, te) { WordBreaks(p, t, c, te); }
    else if AtLast(p, t) { WordEnds(p, t, c, te); }
    else { WordContinues(p, t, c, te); }
  }

  predicate AtLast(p: Parser, t: string) { |t| + 1 == WordSize(p.hs) }

  function WordByte(p: Parser, t: string, te: bool): (r: char)
    requires MatchesName(p.hs) && NameKnown(p, t, te)
    ensures |t| < WordSize(p.hs) && t + [r] <= Word(p.hs)
  {
    Word(p.hs)[|t|]
  }

  /** Past a whole word, or off it, no word comes back. */
  lemma Settled(t: string, c: char)
    requires t == CONNECTION || t == PROXY || t == CONTENT_LENGTH || t == TRANSFER_ENCODING || t == UPGRADE || !Special(t)
    ensures !Special(t + [c])
  {
    PrefixGrows(CONTENT_LENGTH, t, c);
    PrefixGrows(TRANSFER_ENCODING, t, c);
    PrefixGrows(CONNECTION, t, c);
    PrefixGrows(PROXY, t, c);
    PrefixGrows(UPGRADE, t, c);
    if t != "" { FirstLetters(t); }
    if t == CONNECTION { assert t[0] == 'c' && t[3] == 'n'; }
    else if t == CONTENT_LENGTH { assert t[0] == 'c' && t[3] == 't'; }
    else if t == PROXY { assert t[0] == 'p'; }
    else if t == TRANSFER_ENCODING { assert t[0] == 't'; }
    else if t == UPGRADE { assert t[0] == 'u'; }
  }

  /** The first letters of Connection and Content-Length. */
  lemma LetterGrows(p: Parser, t: string, c: char, te: bool)
    requires (p.hs.C? || p.hs.CO? || p.hs.CON?) && NameKnown(p, t, te) && Token(c) != '\0'
    ensures NameKnown(MatchField(p, c), t + [Token(c)], te)
  {
    var u := Token(c);
    PrefixGrows(CONTENT_LENGTH, t, u);
    PrefixGrows(TRANSFER_ENCODING, t, u);
    assert t[0] != TRANSFER_ENCODING[0] && (t + [u])[0] == t[0];
    PrefixGrows(CONNECTION, t, u);
    FirstLetters(t + [u]);
    if p.hs.C? && u == 'o' { assert "c" + ['o'] == "co"; }
    if p.hs.CO? && u == 'n' { assert "co" + ['n'] == "con"; }
    if p.hs.CON? && u == 'n' { assert t + [u] == "connection"[..4]; }
    if p.hs.CON? && u == 't' { assert t + [u] == CONTENT_LENGTH[..4]; }
  }

  lemma NameGrows(p: Parser, t: string, c: char, te: bool)
    requires NameKnown(p, t, te) && Token(c) != '\0' && c != ' '
    ensures NameKnown(MatchField(p, c), t + [Token(c)], te)
  {
    if MatchesName(p.hs) {
      WordGrows(p, t, Token(c), te);
    } else if p.hs.C? || p.hs.CO? || p.hs.CON? {
      LetterGrows(p, t, c, te);
    } else {
      Settled(t, Token(c));
      PrefixGrows(TRANSFER_ENCODING, t, Token(c));
    }
  }

  /** The parser further on in a name: only the matcher, the count and the Transfer-Encoding bit have moved. */
  predicate InName(p: Parser, q: Parser, n: nat) {
    q == p.(st := Field, hs := q.hs, index := q.index, te := q.te, nread := p.nread + n)
  }

  lemma FieldStartSwitch(p: Parser, c: char)
    requires p.st.FieldStart? && Token(c) != '\0'
    ensures Switch(p, c) == Go(p.(index := 0, st := Field, hs := FirstNameState(Token(c))), [Mark(FieldData)])
  {
  }

  lemma FirstNameByte(m: Machine, c: char)
    requires m.parser.st.FieldStart? && Token(c) != '\0' && m.parser.nread < MAX_HEADER_SIZE
    ensures One(m, c) == Done(Machine(
      m.parser.(nread := m.parser.nread + 1, index := 0, st := Field, hs := FirstNameState(Token(c))), OnFieldData(m.ctx, [c])))
  {
    hide Switch, FirstNameState, Token;
    FieldStartSwitch(Counted(m.parser), c);
    assert [Mark(FieldData)][1..] == [];
  }

  lemma NextNameByte(m: Machine, c: char)
    requires m.parser.st.Field? && Token(c) != '\0' && m.parser.nread < MAX_HEADER_SIZE
    ensures One(m, c) == Done(Machine(MatchField(Counted(m.parser), c), OnFieldData(m.ctx, [c])))
  {
    hide MatchField, Token;
    OneField(m, c);
  }

  /** One more byte of a name already begun. */
  lemma NameMore(m: Machine, t: string, te: bool, c: char) returns (q: Parser)
    requires m.parser.st.Field? && Token(c) != '\0' && m.parser.nread < MAX_HEADER_SIZE && NameKnown(m.parser, t, te)
    ensures One(m, c) == Done(Machine(q, OnFieldData(m.ctx, [c])))
    ensures q == m.parser.(hs := q.hs, index := q.index, te := q.te, nread := m.parser.nread + 1)
    ensures NameKnown(q, t + [Token(c)], te)
  {
    hide One, OnFieldData, MatchField, NameKnown, Token;
    NextNameByte(m, c);
    q := MatchField(Counted(m.parser), c);
    TokenIsNoBlank(c);
    KnownNread(m.parser, t, te, m.parser.nread + 1);
    NameGrows(Counted(m.parser), t, c, te);
    FieldFrame(Counted(m.parser), c);
  }

  lemma {:induction false} NameRun(m: Machine, k: string) returns (q: Parser)
    requires m.parser.st.FieldStart? && TokenName(k) && m.parser.nread + |k| <= MAX_HEADER_SIZE
    ensures Run(m, k) == Done(Machine(q, OnFieldData(m.ctx, k)))
    ensures InName(m.parser, q, |k|) && NameKnown(q, LowerName(k), m.parser.te)
  {
    hide One, Run, OnFieldData, NameKnown, Token, FirstNameState, LowerName;
    var init, c := k[..|k| - 1], k[|k| - 1];
    assert k == init + [c] && Token(c) != '\0';
    RunOne(m, init, c);
    LowerGrows(init, c);
    if |k| == 1 {
      Empty(m);
      assert init == "";
      FirstNameByte(m, c);
      q := m.parser.(nread := m.parser.nread + 1, index := 0, st := Field, hs := FirstNameState(Token(c)));
      NameStarts(q, Token(c));
      assert [] + [Token(c)] == [Token(c)] && k == [c] && LowerName(init) == [];
    } else {
      var a := NameRun(m, init);
      q := NameMore(Machine(a, OnFieldData(m.ctx, init)), LowerName(init), m.parser.te, c);
      NamesJoin(m.ctx, init, [c]);
    }
  }

  lemma LowerGrows(k: string, c: char)
    ensures LowerName(k + [c]) == LowerName(k) + [Token(c)]
  {
    hide Token;
  }

  lemma TokenIsNoBlank(c: char)
    requires Token(c) != '\0'
    ensures c != ' ' && c != TAB && c != CR && c != LF
  {
  }

  lemma NamesJoin(c: Ctx, s: string, t: string)
    ensures OnFieldData(OnFieldData(c, s), t) == OnFieldData(c, s + t)
  {
    DeliverJoin(c, FieldData, s, t);
  }

  lemma KnownNread(p: Parser, t: string, te: bool, n: nat)
    requires NameKnown(p, t, te)
    ensures NameKnown(p.(nread := n), t, te)
  {
    hide Word;
  }

  lemma FieldFrame(p: Parser, c: char)
    requires p.st.Field?
    ensures var q := MatchField(p, c); q == p.(hs := q.hs, index := q.index, te := q.te)
  {
    hide Word, Token;
  }

  // ------------------------------------------------------------------ values

  predicate PlainByte(c: char) { c != CR && c != LF && IsHeaderChar(c) }

  /** A value as it can be sent: no CR or LF, and no blank in front. */
  predicate PlainValue(v: string) {
    (forall i | 0 <= i < |v| :: PlainByte(v[i])) && (v == "" || (v[0] != ' ' && v[0] != TAB))
  }

  /** The matcher states of a value that is neither a length nor a transfer coding. */
  predicate OtherValue(hs: HeaderState) {
    hs.General? || hs.MatchingKeepAlive? || hs.MatchingClose? || hs.MatchingConnUpgrade? || hs.TokenConn? ||
    hs.TokenStartConn? || hs.KeepAlive? || hs.Close? || hs.ConnUpgrade?
  }

  predicate OtherName(hs: HeaderState) { !hs.ContentLength? && !hs.TransferEncoding? && !hs.Upgrade? && !hs.TokenStartTE? && !hs.ContentLengthWs? }

  /** Reading a header leaves these alone: framing, upgrade and everything about the request line. */
  predicate SameFraming(p: Parser, q: Parser) {
    q == p.(st := q.st, hs := q.hs, index := q.index, nread := q.nread,
            flags := p.flags.(keepAlive := q.flags.keepAlive, close := q.flags.close, connUpgrade := q.flags.connUpgrade))
  }

  lemma SameFramingJoin(p: Parser, q: Parser, r: Parser)
    requires SameFraming(p, q) && SameFraming(q, r)
    ensures SameFraming(p, r)
  {
  }

  lemma ValueStartsOther(p: Parser, c: char)
    requires OtherName(p.hs)
    ensures var o := OnValueStart(p, c);
      o.Go? && o.acts == [Mark(ValueData)] && o.parser.st.Value? && o.parser.nread == p.nread && OtherValue(o.parser.hs) &&
      SameFraming(p, o.parser)
  {
  }

  lemma TokenGoesOn(p: Parser, c: char)
    requires p.st.Value? && OtherValue(p.hs) && MatchesToken(p.hs)
    ensures var q := MatchWord(p, Lower(c), OtherToken(p.hs));
      MatchValue(p, c) == Go(q, []) && OtherValue(q.hs) && q == p.(hs := q.hs, index := q.index)
  {
    hide Word, Lower;
  }

  /** The parser after a byte of such a value: only the matcher and the three connection flags can differ. */
  function Matched(p: Parser, hs: HeaderState, index: nat, flags: Flags): Parser { p.(hs := hs, index := index, flags := flags) }

  lemma MatchedFraming(p: Parser, hs: HeaderState, index: nat, flags: Flags)
    requires flags == p.flags.(keepAlive := flags.keepAlive, close := flags.close, connUpgrade := flags.connUpgrade)
    ensures var q := Matched(p, hs, index, flags); SameFraming(p, q) && q.st == p.st && q.nread == p.nread && q.hs == hs
  {
  }

  /** How one byte moves the matcher on. */
  predicate Moves(p: Parser, o: Outcome) {
    o.Go? && OtherValue(o.parser.hs) && o.parser == Matched(p, o.parser.hs, o.parser.index, o.parser.flags)
    && (o.parser.flags == p.flags || o.parser.flags == ConnectionFlags(p.flags, p.hs))
  }

  lemma AfterTokenMoves(p: Parser, c: char)
    requires OtherValue(p.hs)
    ensures Moves(p, Go(AfterToken(p, c), []))
  {
    hide ConnectionFlags;
  }

  lemma ConnectionMoves(p: Parser, c: char)
    requires OtherValue(p.hs) && !MatchesToken(p.hs)
    ensures Moves(p, MatchValue(p, c))
  {
    hide Word, MatchWord, Token, NextCoding, ContentLengthDigit, AfterToken, ConnectionFlags;
    AfterTokenMoves(p, c);
  }

  lemma FlagsKept(f: Flags, hs: HeaderState)
    ensures var g := ConnectionFlags(f, hs); g == f.(keepAlive := g.keepAlive, close := g.close, connUpgrade := g.connUpgrade)
    ensures f == f.(keepAlive := f.keepAlive, close := f.close, connUpgrade := f.connUpgrade)
  {
  }

  lemma ValueGoesOnOther(p: Parser, c: char)
    requires p.st.Value? && OtherValue(p.hs)
    ensures var o := MatchValue(p, c);
      o.Go? && o.parser.st.Value? && o.parser.nread == p.nread && OtherValue(o.parser.hs) && SameFraming(p, o.parser)
  {
    hide MatchValue, MatchWord, OtherValue;
    if MatchesToken(p.hs) {
      TokenGoesOn(p, c);
    } else {
      hide ConnectionFlags, SameFraming, Matched;
      ConnectionMoves(p, c);
      FlagsKept(p.flags, p.hs);
      var q := MatchValue(p, c).parser;
      MatchedFraming(p, q.hs, q.index, q.flags);
    }
  }

  /** The first byte of a value, from the blanks after the colon. */
  lemma FirstValueByte(m: Machine, c: char)
    requires m.parser.st.DiscardWs? && PlainByte(c) && c != ' ' && c != TAB && m.parser.nread < MAX_HEADER_SIZE
    requires OnValueStart(Counted(m.parser), c).Go? && OnValueStart(Counted(m.parser), c).acts == [Mark(ValueData)]
    ensures One(m, c) == Done(Machine(OnValueStart(Counted(m.parser), c).parser, Deliver(m.ctx, ValueData, [c])))
  {
    hide OnValueStart;
    assert [Mark(ValueData)][1..] == [];
  }

  lemma ValueRunOther(m: Machine, v: string) returns (q: Parser)
    requires m.parser.st.DiscardWs? && OtherName(m.parser.hs) && PlainValue(v) && v != ""
    requires m.parser.nread + |v| <= MAX_HEADER_SIZE
    ensures Run(m, v) == Done(Machine(q, Deliver(m.ctx, ValueData, v)))
    ensures q.st.Value? && OtherValue(q.hs) && SameFraming(m.parser, q) && q.nread == m.parser.nread + |v|
    decreases |v|
  {
    hide One, Run, OnValueStart, MatchValue, Deliver, SameFraming, IsHeaderChar;
    var init, c := v[..|v| - 1], v[|v| - 1];
    assert v == init + [c] && PlainByte(c);
    RunOne(m, init, c);
    if |v| == 1 {
      Empty(m);
      assert init == "" && v == [c] && v[0] == c;
      ValueStartsOther(Counted(m.parser), c);
      FirstValueByte(m, c);
      q := OnValueStart(Counted(m.parser), c).parser;
      CountedSame(m.parser, q);
    } else {
      var a := ValueRunOther(m, init);
      var n := Machine(a, Deliver(m.ctx, ValueData, init));
      OneValue(n, c);
      ValueGoesOnOther(Counted(a), c);
      q := MatchValue(Counted(a), c).parser;
      CountedSame(a, q);
      SameFramingJoin(m.parser, a, q);
      DeliverJoin(m.ctx, ValueData, init, [c]);
    }
  }

  lemma CountedSame(p: Parser, q: Parser)
    requires SameFraming(Counted(p), q)
    ensures SameFraming(p, q)
  {
  }

  // ------------------------------------------------------------------ Content-Length

  /** std::to_string. */
  function Decimal(n: nat): (r: string)
    ensures r != ""
  {
    (if n < 10 then "" else Decimal(n / 10)) + [DecimalDigit(n % 10)]
  }

  /** Above this a length is refused as an overflow. */
  const MAX_LENGTH := ULLONG_MAX - 6

  lemma DigitValue(d: nat)
    requires d < 10
    ensures var c := DecimalDigit(d); IsNum(c) && Digit(c) == d && PlainByte(c) && c != ' ' && c != TAB && Token(c) != '\0'
  {
  }

  lemma FirstDigit(m: Machine, d: nat)
    requires m.parser.st.DiscardWs? && m.parser.hs.ContentLength? && !m.parser.flags.contentLength && d < 10
    requires m.parser.nread < MAX_HEADER_SIZE
    ensures One(m, DecimalDigit(d)) == Done(Machine(
      m.parser.(st := Value, index := 0, flags := m.parser.flags.(contentLength := true), contentLength := d,
                hs := ContentLengthNum, nread := m.parser.nread + 1),
      Deliver(m.ctx, ValueData, [DecimalDigit(d)])))
  {
    hide DecimalDigit, Deliver, IsHeaderChar;
    DigitValue(d);
    FirstValueByte(m, DecimalDigit(d));
  }

  lemma NextDigit(m: Machine, d: nat)
    requires m.parser.st.Value? && m.parser.hs.ContentLengthNum? && d < 10
    ensures One(m, DecimalDigit(d)) ==
      if m.parser.nread >= MAX_HEADER_SIZE || m.parser.contentLength > MAX_LENGTH / 10 then Failed
      else Done(Machine(m.parser.(contentLength := m.parser.contentLength * 10 + d, nread := m.parser.nread + 1),
                        Deliver(m.ctx, ValueData, [DecimalDigit(d)])))
  {
    hide One, DecimalDigit, Deliver;
    DigitValue(d);
    OneValue(m, DecimalDigit(d));
  }

  lemma DecimalLeft(n: nat)
    requires n >= 10
    ensures n == n / 10 * 10 + n % 10 && n % 10 < 10
    ensures n <= MAX_LENGTH <==> n / 10 <= MAX_LENGTH / 10
  {
  }

  lemma DecimalIs(n: nat)
    ensures Decimal(n) == (if n < 10 then "" else Decimal(n / 10)) + [DecimalDigit(n % 10)]
  {
  }

  /** A printed length is read as the number it denotes, up to 2^64 - 7; from there on it is refused. */
  lemma {:induction false} LengthRead(m: Machine, n: nat)
    requires m.parser.st.DiscardWs? && m.parser.hs.ContentLength? && !m.parser.flags.contentLength
    requires m.parser.nread + |Decimal(n)| <= MAX_HEADER_SIZE
    ensures Run(m, Decimal(n)).Done? <==> n <= MAX_LENGTH
    ensures n <= MAX_LENGTH ==> Run(m, Decimal(n)) == Done(Machine(
      m.parser.(st := Value, index := 0, flags := m.parser.flags.(contentLength := true), contentLength := n,
                hs := ContentLengthNum, nread := m.parser.nread + |Decimal(n)|),
      Deliver(m.ctx, ValueData, Decimal(n))))
  {
    hide One, Run, DecimalDigit, Deliver, Decimal;
    var init := if n < 10 then "" else Decimal(n / 10);
    DecimalIs(n);
    RunOne(m, init, DecimalDigit(n % 10));
    if n < 10 {
      Empty(m);
      FirstDigit(m, n);
      assert Decimal(n) == [DecimalDigit(n)];
    } else {
      DecimalLeft(n);
      LengthRead(m, n / 10);
      if n / 10 <= MAX_LENGTH {
        NextDigit(Run(m, init).m, n % 10);
        DeliverJoin(m.ctx, ValueData, init, [DecimalDigit(n % 10)]);
      } else {
        RunJoin(m, init, [DecimalDigit(n % 10)]);
      }
    }
  }
}
