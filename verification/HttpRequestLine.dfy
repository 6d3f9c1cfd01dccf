/** Reading back a printed request line. */
module HttpRequestLine {
  import opened HttpAutomaton
  import opened HttpConsumer

  /** A byte without acts. */
  lemma Plainly(m: Machine, b: char, q: Parser)
    requires ParsingHeader(m.parser.st) && m.parser.nread < MAX_HEADER_SIZE && MarkAt(m.parser.st).None?
    requires Switch(Counted(m.parser), b) == Go(q, [])
    ensures One(m, b) == Done(Machine(q, m.ctx))
  {
    hide Switch;
  }

  // ------------------------------------------------------------------ the method

  /** The method the parser holds after the first i bytes of a name, i > 0. */
  function Via(v: Method, i: nat): Method {
    match v
    case PUT => if i <= 1 then POST else v
    case PATCH => if i <= 1 then POST else v
    case PROPFIND => if i <= 1 then POST else v
    case PROPPATCH => if i <= 1 then POST else if i <= 4 then PROPFIND else v
    case PURGE => if i <= 1 then POST else if i <= 2 then PUT else v
    case CHECKOUT => if i <= 1 then CONNECT else v
    case COPY => if i <= 2 then CONNECT else v
    case MOVE => if i <= 1 then MKCOL else v
    case MERGE => if i <= 1 then MKCOL else v
    case MKACTIVITY => if i <= 2 then MKCOL else v
    case MKCALENDAR => if i <= 3 then MKCOL else v
    case SEARCH => if i <= 1 then SUBSCRIBE else v
    case SOURCE => if i <= 1 then SUBSCRIBE else v
    case REBIND => if i <= 2 then REPORT else v
    case LINK => if i <= 1 then LOCK else v
    case UNSUBSCRIBE => if i <= 2 then UNLOCK else v
    case UNBIND => if i <= 2 then UNLOCK else v
    case UNLINK => if i <= 3 then UNLOCK else v
    case _ => v
  }

  /** One byte of a method name, in the terms the switch uses. */
  function MethodByte(v: Method, i: nat, c: char): Option<Method> {
    var name := Name(v);
    if i < |name| && c == name[i] then Some(v) else if 'A' <= c <= 'Z' then SwitchMethod(v, i, c) else None
  }

  lemma ViaFirst(v: Method)
    requires !v.MSEARCH?
    ensures Name(v) != "" && FirstMethod(Name(v)[0]) == Some(Via(v, 1))
  {
  }

  lemma ViaNext(v: Method, i: nat)
    requires !v.MSEARCH? && 0 < i < |Name(v)|
    ensures MethodByte(Via(v, i), i, Name(v)[i]) == Some(Via(v, i + 1))
  {
  }

  lemma MethodSwitch(p: Parser, c: char)
    requires p.st.ReqMethod? && MethodByte(p.verb, p.index, c).Some? && 'A' <= c <= 'Z'
    ensures Switch(p, c) == Go(p.(verb := MethodByte(p.verb, p.index, c).value, index := p.index + 1), [])
  {
    hide SwitchMethod, Name;
  }

  lemma StartSwitch(p: Parser, c: char)
    requires p.st.StartReq? && FirstMethod(c).Some?
    ensures Switch(p, c) == Go(Clean(p).(verb := FirstMethod(c).value, index := 1, st := ReqMethod), [])
  {
    hide Clean;
  }

  lemma NameIsUpper(v: Method, i: nat)
    requires !v.MSEARCH? && i < |Name(v)|
    ensures 'A' <= Name(v)[i] <= 'Z' && |Name(v)| <= 11
  {
  }

  /** Bytes of a method name, printed from the table, lead to that method. */
  lemma {:induction false} MethodRun(m: Machine, v: Method, i: nat)
    requires m.parser.st.StartReq? && m.parser.nread + |Name(v)| <= MAX_HEADER_SIZE && !v.MSEARCH? && 0 < i <= |Name(v)|
    ensures Run(m, Name(v)[..i]) ==
      Done(Machine(Clean(m.parser).(verb := Via(v, i), index := i, st := ReqMethod, nread := m.parser.nread + i), m.ctx))
  {
    hide One, Switch, Via, Name, FirstMethod, MethodByte, Clean, Run;
    NameIsUpper(v, i - 1);
    var c := Name(v)[i - 1];
    assert Name(v)[..i] == Name(v)[..i - 1] + [c];
    RunOne(m, Name(v)[..i - 1], c);
    if i == 1 {
      Empty(m);
      assert Name(v)[..0] == "";
      ViaFirst(v);
      StartSwitch(Counted(m.parser), c);
      CleanNread(m.parser, m.parser.nread + 1);
      Plainly(m, c, Clean(Counted(m.parser)).(verb := Via(v, 1), index := 1, st := ReqMethod));
    } else {
      MethodRun(m, v, i - 1);
      var a := Run(m, Name(v)[..i - 1]).m;
      ViaNext(v, i - 1);
      MethodSwitch(Counted(a.parser), c);
      Plainly(a, c, Counted(a.parser).(verb := Via(v, i), index := i));
    }
  }

  lemma CleanNread(p: Parser, n: nat)
    ensures Clean(p.(nread := n)) == Clean(p).(nread := n)
  {
  }

  lemma MethodEnds(m: Machine)
    requires m.parser.st.ReqMethod? && m.parser.index == |Name(m.parser.verb)| && m.parser.nread < MAX_HEADER_SIZE
    ensures One(m, ' ') ==
      Done(Machine(m.parser.(st := ReqSpacesBeforeUrl, index := m.parser.index + 1, nread := m.parser.nread + 1), m.ctx))
  {
    hide Name, SwitchMethod;
  }

  lemma FirstM(m: Machine)
    requires m.parser.st.StartReq?
    ensures var r := One(m, 'M');
      r.Failed? || (r.Done? && r.m.parser.st.ReqMethod? && r.m.parser.verb.MKCOL? && r.m.parser.index == 1)
  {
    hide Clean;
    StartSwitch(Counted(m.parser), 'M');
  }

  lemma BlankRefused(m: Machine)
    requires m.parser.st.ReqMethod? && m.parser.verb.MKCOL? && m.parser.index == 1
    ensures One(m, ' ').Failed?
  {
  }

  /** The exception: the table prints M-SEARCH with blanks, and the parser refuses what it prints. */
  lemma MSearchRefused(m: Machine, rest: string)
    requires m.parser.st.StartReq?
    ensures Run(m, Name(MSEARCH) + rest).Failed?
  {
    hide One, Run;
    var name := Name(MSEARCH);
    assert name + rest == "M " + (name[2..] + rest);
    RunJoin(m, "M ", name[2..] + rest);
    assert "M " == "M" + [' '] && "M" == "" + ['M'];
    Empty(m);
    RunOne(m, "", 'M');
    FirstM(m);
    if One(m, 'M').Done? {
      RunOne(m, "M", ' ');
      BlankRefused(One(m, 'M').m);
    } else {
      RunJoin(m, "M", " ");
    }
  }

  // ------------------------------------------------------------------ the URL

  /** Where a URL's bytes lead from the blanks before it. */
  function UrlState(url: string): State {
    if url == "" then ReqSpacesBeforeUrl else ParseUrlChar(UrlState(url[..|url| - 1]), url[|url| - 1])
  }

  /** A URL the parser takes: it may end in the server, the path, the query or the fragment. */
  predicate UrlAccepted(url: string) {
    var st := UrlState(url);
    InUrl(st) && !st.ReqSchema? && !st.ReqSchemaSlash? && !st.ReqSchemaSlashSlash? && !st.ReqServerStart?
  }

  predicate AfterAuthority(st: State) {
    st.ReqPath? || st.ReqQueryStringStart? || st.ReqQueryString? || st.ReqFragmentStart? || st.ReqFragment?
  }

  /** Every origin-form or asterisk-form target of visible ASCII bytes is one. */
  lemma {:induction false} OriginForm(url: string)
    requires url != "" && (url[0] == '/' || url[0] == '*') && forall k | 0 < k < |url| :: '!' <= url[k] <= '~'
    ensures UrlAccepted(url) && AfterAuthority(UrlState(url))
  {
    if |url| == 1 {
      assert url[..0] == "";
    } else {
      OriginForm(url[..|url| - 1]);
    }
  }

  lemma {:induction false} DeadUrlStays(url: string)
    requires url != "" && InUrl(UrlState(url))
    ensures |url| == 1 || InUrl(UrlState(url[..|url| - 1]))
  {
    if |url| > 1 { assert url[..|url| - 1] != ""; }
  }

  lemma UrlSwitch(p: Parser, c: char)
    requires InUrl(p.st) && InUrl(ParseUrlChar(p.st, c))
    ensures Switch(p, c) == Go(p.(st := ParseUrlChar(p.st, c)), [])
  {
    hide ServerChar, QueryChar;
    var q := OnUrl(p, c);
    assert q == Go(p.(st := ParseUrlChar(p.st, c)), []);
  }

  lemma UrlFirstSwitch(p: Parser, c: char)
    requires p.st.ReqSpacesBeforeUrl? && !p.verb.CONNECT? && InUrl(ParseUrlChar(p.st, c))
    ensures Switch(p, c) == Go(p.(st := ParseUrlChar(p.st, c)), [Mark(Url)])
  {
  }

  lemma UrlCounts(p: Parser)
    requires InUrl(p.st)
    ensures ParsingHeader(p.st) && MarkAt(p.st) == Some(Url)
  {
  }

  lemma UrlByte(m: Machine, b: char, st: State)
    requires m.parser.nread < MAX_HEADER_SIZE && InUrl(m.parser.st) && InUrl(st) && st == ParseUrlChar(m.parser.st, b)
    ensures One(m, b) == Done(Machine(m.parser.(nread := m.parser.nread + 1, st := st), m.ctx.(url := m.ctx.url + [b])))
  {
    hide Switch, ParseUrlChar, InUrl;
    UrlSwitch(Counted(m.parser), b);
    UrlCounts(m.parser);
    assert Advance(m.parser, b) == Go(m.parser.(nread := m.parser.nread + 1, st := st), []);
  }

  lemma UrlFirst(m: Machine, b: char, st: State)
    requires m.parser.nread < MAX_HEADER_SIZE && m.parser.st.ReqSpacesBeforeUrl? && !m.parser.verb.CONNECT?
    requires InUrl(st) && st == ParseUrlChar(m.parser.st, b)
    ensures One(m, b) == Done(Machine(m.parser.(nread := m.parser.nread + 1, st := st), m.ctx.(url := m.ctx.url + [b])))
  {
    hide Switch, ParseUrlChar;
    UrlFirstSwitch(Counted(m.parser), b);
    assert [Mark(Url)][1..] == [];
  }

  lemma {:induction false} UrlRun(m: Machine, url: string)
    requires m.parser.st.ReqSpacesBeforeUrl? && !m.parser.verb.CONNECT? && url != "" && InUrl(UrlState(url))
    requires m.parser.nread + |url| <= MAX_HEADER_SIZE
    ensures Run(m, url) ==
      Done(Machine(m.parser.(nread := m.parser.nread + |url|, st := UrlState(url)), m.ctx.(url := m.ctx.url + url)))
  {
    hide One, Run, ParseUrlChar;
    var init, c := url[..|url| - 1], url[|url| - 1];
    assert url == init + [c];
    RunOne(m, init, c);
    if |url| == 1 {
      Empty(m);
      assert init == "";
      UrlFirst(m, c, UrlState(url));
    } else {
      DeadUrlStays(url);
      UrlRun(m, init);
      UrlByte(Run(m, init).m, c, UrlState(url));
      assert (m.ctx.url + init) + [c] == m.ctx.url + url;
    }
  }

  lemma SpaceSwitch(p: Parser)
    requires InUrl(p.st) && !p.st.ReqSchema? && !p.st.ReqSchemaSlash? && !p.st.ReqSchemaSlashSlash? && !p.st.ReqServerStart?
    ensures Switch(p, ' ') == Go(p.(st := ReqHttpStart), [Flush(Url)])
  {
    hide ParseUrlChar;
  }

  lemma UrlEnds(m: Machine)
    requires InUrl(m.parser.st) && m.parser.nread < MAX_HEADER_SIZE
    requires !m.parser.st.ReqSchema? && !m.parser.st.ReqSchemaSlash? && !m.parser.st.ReqSchemaSlashSlash? && !m.parser.st.ReqServerStart?
    ensures One(m, ' ') == Done(Machine(m.parser.(nread := m.parser.nread + 1, st := ReqHttpStart), m.ctx))
  {
    hide Switch, InUrl;
    UrlCounts(m.parser);
    SpaceSwitch(m.parser.(nread := m.parser.nread + 1));
    assert [Flush(Url)][1..] == [];
    assert m.ctx.url + "" == m.ctx.url;
  }

  // ------------------------------------------------------------------ the version

  lemma ExpectedByte(m: Machine, c: char)
    requires Expected(m.parser.st).Some? && Expected(m.parser.st).value.0 == c && m.parser.nread < MAX_HEADER_SIZE
    ensures One(m, c) == Done(Machine(m.parser.(nread := m.parser.nread + 1, st := Expected(m.parser.st).value.1), m.ctx))
  {
    hide InStartLine, StartLine, OnFieldStart, OnDiscardLws, OnValueLws, OnHeadersAlmostDone, OnBodyIdentity;
  }

  lemma HttpStarts(m: Machine)
    requires m.parser.st.ReqHttpStart? && m.parser.nread < MAX_HEADER_SIZE
    ensures One(m, 'H') == Done(Machine(m.parser.(nread := m.parser.nread + 1, st := ReqH), m.ctx))
  {
  }

  function DecimalDigit(d: nat): char
    requires d < 10
  {
    "0123456789"[d]
  }

  lemma VersionDigit(m: Machine, d: nat)
    requires (m.parser.st.ReqMajor? || m.parser.st.ReqMinor?) && m.parser.nread < MAX_HEADER_SIZE && d < 10
    ensures One(m, DecimalDigit(d)) == Done(Machine(
      if m.parser.st.ReqMajor? then m.parser.(nread := m.parser.nread + 1, major := d, st := ReqDot)
      else m.parser.(nread := m.parser.nread + 1, minor := d, st := ReqEnd), m.ctx))
  {
    DecimalDigitIs(d);
    hide DecimalDigit;
  }

  lemma DecimalDigitIs(d: nat)
    requires d < 10
    ensures IsNum(DecimalDigit(d)) && Digit(DecimalDigit(d)) == d
  {
  }

  lemma VersionEnds(m: Machine)
    requires m.parser.st.ReqEnd? && m.parser.nread < MAX_HEADER_SIZE
    ensures One(m, CR) == Done(Machine(m.parser.(nread := m.parser.nread + 1, st := ReqLineAlmostDone), m.ctx))
  {
  }

  predicate Reads(m: Machine, s: string, a: Machine) { Run(m, s) == Done(a) }

  lemma ReadOn(m: Machine, s: string, a: Machine, t: string, b: Machine)
    requires Reads(m, s, a) && Reads(a, t, b)
    ensures Reads(m, s + t, b)
  {
    hide Run;
    RunJoin(m, s, t);
  }

  lemma ReadOne(m: Machine, b: char, a: Machine)
    requires One(m, b) == Done(a)
    ensures Reads(m, [b], a)
  {
    hide One, Run;
    Empty(m);
    RunOne(m, "", b);
    assert "" + [b] == [b];
  }

  /** The parser n bytes on, in another state. */
  function On(m: Machine, n: nat, st: State): Machine {
    Machine(m.parser.(nread := m.parser.nread + n, st := st), m.ctx)
  }

  /** One byte more of a fixed text. */
  lemma ReadChar(m: Machine, s: string, a: Machine, c: char, t: string, b: Machine)
    requires Reads(m, s, a) && One(a, c) == Done(b) && t == s + [c]
    ensures Reads(m, t, b)
  {
    hide One, Run;
    RunOne(m, s, c);
  }

  predicate Fixed(st: State, c: char, next: State) {
    Expected(st).Some? && Expected(st).value.0 == c && Expected(st).value.1 == next
  }

  lemma FixedBytes()
    ensures Fixed(ReqH, 'T', ReqHT) && Fixed(ReqHT, 'T', ReqHTT) && Fixed(ReqHTT, 'P', ReqHTTP) && Fixed(ReqHTTP, '/', ReqMajor)
  {
  }

  lemma OnNow(m: Machine, st: State)
    ensures On(m, 1, st) == Machine(m.parser.(nread := m.parser.nread + 1, st := st), m.ctx)
  {
  }

  lemma ReadFixed(m: Machine, s: string, n: nat, st: State, c: char, next: State)
    requires Reads(m, s, On(m, n, st)) && Fixed(st, c, next) && m.parser.nread + n < MAX_HEADER_SIZE
    ensures Reads(m, s + [c], On(m, n + 1, next))
  {
    hide One, Expected;
    ExpectedByte(On(m, n, st), c);
    ReadChar(m, s, On(m, n, st), c, s + [c], On(m, n + 1, next));
  }

  lemma ReadHttp(m: Machine)
    requires m.parser.st.ReqHttpStart? && m.parser.nread + 5 <= MAX_HEADER_SIZE
    ensures Reads(m, "HTTP/", On(m, 5, ReqMajor))
  {
    hide One, Run, Reads, On, Expected;
    FixedBytes();
    OnNow(m, ReqH);
    HttpStarts(m);
    ReadOne(m, 'H', On(m, 1, ReqH));
    assert "H" + ['T'] == "HT" && "HT" + ['T'] == "HTT" && "HTT" + ['P'] == "HTTP" && "HTTP" + ['/'] == "HTTP/";
    ReadFixed(m, "H", 1, ReqH, 'T', ReqHT);
    ReadFixed(m, "HT", 2, ReqHT, 'T', ReqHTT);
    ReadFixed(m, "HTT", 3, ReqHTT, 'P', ReqHTTP);
    ReadFixed(m, "HTTP", 4, ReqHTTP, '/', ReqMajor);
  }

  const LINE_END := "\r\n"

  function VersionText(major: nat, minor: nat): string
    requires major < 10 && minor < 10
  {
    [DecimalDigit(major)] + "." + [DecimalDigit(minor)] + LINE_END
  }

  lemma ReadVersion(m: Machine, major: nat, minor: nat)
    requires m.parser.st.ReqMajor? && m.parser.nread + 5 <= MAX_HEADER_SIZE && major < 10 && minor < 10
    ensures Reads(m, VersionText(major, minor),
      Machine(m.parser.(nread := m.parser.nread + 5, major := major, minor := minor, st := FieldStart), m.ctx))
  {
    hide One, Run, Reads, DecimalDigit;
    var n, x, y := m.parser.nread, DecimalDigit(major), DecimalDigit(minor);
    var a := Machine(m.parser.(nread := n + 1, major := major, st := ReqDot), m.ctx);
    var c := Machine(m.parser.(nread := n + 3, major := major, minor := minor, st := ReqEnd), m.ctx);
    VersionDigit(m, major);
    ReadOne(m, x, a);
    ExpectedByte(a, '.');
    ReadChar(m, [x], a, '.', [x] + ".", On(a, 1, ReqMinor));
    VersionDigit(On(a, 1, ReqMinor), minor);
    ReadChar(m, [x] + ".", On(a, 1, ReqMinor), y, [x] + "." + [y], c);
    VersionEnds(c);
    ReadChar(m, [x] + "." + [y], c, CR, [x] + "." + [y] + [CR], On(c, 1, ReqLineAlmostDone));
    ExpectedByte(On(c, 1, ReqLineAlmostDone), LF);
    assert [x] + "." + [y] + [CR] + [LF] == VersionText(major, minor);
    ReadChar(m, [x] + "." + [y] + [CR], On(c, 1, ReqLineAlmostDone), LF, VersionText(major, minor), On(c, 2, FieldStart));
  }

  /** The parts of a request line; a version's numbers have one digit each. */
  datatype Top = Top(verb: Method, url: string, major: nat, minor: nat)

  predicate TopOk(t: Top) { !t.verb.MSEARCH? && !t.verb.CONNECT? && UrlAccepted(t.url) && t.major < 10 && t.minor < 10 }

  function TopText(t: Top): string
    requires TopOk(t)
  {
    Name(t.verb) + " " + t.url + " " + "HTTP/" + VersionText(t.major, t.minor)
  }

  /** A request line is read to its method, its URL and its version. */
  lemma TopRun(m: Machine, t: Top)
    requires m.parser.st.StartReq? && TopOk(t) && m.parser.nread + |TopText(t)| <= MAX_HEADER_SIZE
    ensures Reads(m, TopText(t), Machine(
      Clean(m.parser).(verb := t.verb, index := |Name(t.verb)| + 1, major := t.major, minor := t.minor, st := FieldStart,
                       nread := m.parser.nread + |TopText(t)|),
      m.ctx.(url := m.ctx.url + t.url)))
  {
    hide One, Run, Clean, UrlState, Name, Via, DecimalDigit;
    var v, url := t.verb, t.url;
    var k, n := |Name(v)|, m.parser.nread;
    ViaEnds(v);
    MethodRun(m, v, k);
    assert Name(v)[..k] == Name(v);
    var a := Machine(Clean(m.parser).(verb := v, index := k, st := ReqMethod, nread := n + k), m.ctx);
    MethodEnds(a);
    var b := Machine(Clean(m.parser).(verb := v, index := k + 1, st := ReqSpacesBeforeUrl, nread := n + k + 1), m.ctx);
    ReadOne(a, ' ', b);
    ReadOn(m, Name(v), a, " ", b);
    UrlNotEmpty(url);
    UrlRun(b, url);
    var c := Machine(b.parser.(nread := b.parser.nread + |url|, st := UrlState(url)), m.ctx.(url := m.ctx.url + url));
    ReadOn(m, Name(v) + " ", b, url, c);
    UrlEnds(c);
    var d := On(c, 1, ReqHttpStart);
    ReadOne(c, ' ', d);
    ReadOn(m, Name(v) + " " + url, c, " ", d);
    ReadHttp(d);
    ReadOn(m, Name(v) + " " + url + " ", d, "HTTP/", On(d, 5, ReqMajor));
    ReadVersion(On(d, 5, ReqMajor), t.major, t.minor);
    ReadOn(m, Name(v) + " " + url + " " + "HTTP/", On(d, 5, ReqMajor), VersionText(t.major, t.minor),
           Machine(d.parser.(nread := d.parser.nread + 10, major := t.major, minor := t.minor, st := FieldStart), d.ctx));
  }

  /** As format prints it. */
  function RequestLineText(v: Method, url: string): string { Name(v) + " " + url + " HTTP/1.1\r\n" }

  /** A printed request line is read back as its method and URL, version 1.1. */
  lemma RequestLineRun(m: Machine, v: Method, url: string)
    requires m.parser.st.StartReq? && !v.MSEARCH? && !v.CONNECT? && UrlAccepted(url)
    requires m.parser.nread + |RequestLineText(v, url)| <= MAX_HEADER_SIZE
    ensures Reads(m, RequestLineText(v, url), Machine(
      Clean(m.parser).(verb := v, index := |Name(v)| + 1, major := 1, minor := 1, st := FieldStart,
                       nread := m.parser.nread + |RequestLineText(v, url)|),
      m.ctx.(url := m.ctx.url + url)))
  {
    hide Run, Clean, UrlAccepted, Name, Reads;
    assert "HTTP/" + VersionText(1, 1) == "HTTP/1.1\r\n" && " " + "HTTP/1.1\r\n" == " HTTP/1.1\r\n";
    assert TopText(Top(v, url, 1, 1)) == RequestLineText(v, url);
    TopRun(m, Top(v, url, 1, 1));
  }

  lemma UrlNotEmpty(url: string)
    requires UrlAccepted(url)
    ensures url != ""
  {
  }

  lemma ViaEnds(v: Method)
    requires !v.MSEARCH?
    ensures Via(v, |Name(v)|) == v && |Name(v)| > 0
  {
  }
}
