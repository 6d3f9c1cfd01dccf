/** Exactly which methods and URLs a request line may have. */
module HttpTargets {
  import opened HttpAutomaton
  import opened HttpConsumer
  import opened HttpFraming
  import opened HttpRequestLine

  // ------------------------------------------------------------------ methods

  /** A method that is printed as it is read. */
  predicate Known(w: string) { exists v: Method :: !v.MSEARCH? && Name(v) == w }

  /** What the parser holds after the letters `w`: a method that begins with them, or the one that is misprinted. */
  predicate AtLetters(v: Method, w: string) {
    if v.MSEARCH? then w == "M-" || w == "M--" else w <= Name(v)
  }

  predicate SameUpTo(a: string, b: string, i: nat)
    requires i <= |a| && i <= |b|
  {
    forall k | 0 <= k < i :: a[k] == b[k]
  }

  lemma SwitchPrefixEarly(v: Method, i: nat, c: char)
    requires SwitchMethod(v, i, c).Some? && !SwitchMethod(v, i, c).value.MSEARCH? && v in {POST, PUT, CONNECT, MKCOL}
    ensures var r := SwitchMethod(v, i, c).value; i <= |Name(v)| && i < |Name(r)| && SameUpTo(Name(v), Name(r), i) && Name(r)[i] == c
  {
  }

  lemma SwitchPrefixLate(v: Method, i: nat, c: char)
    requires SwitchMethod(v, i, c).Some? && v !in {POST, PUT, CONNECT, MKCOL}
    ensures var r := SwitchMethod(v, i, c).value; i <= |Name(v)| && i < |Name(r)| && SameUpTo(Name(v), Name(r), i) && Name(r)[i] == c
  {
  }

  /** A switch to another method goes to one that begins the same and goes on with this byte. */
  lemma SwitchPrefix(v: Method, i: nat, c: char)
    requires SwitchMethod(v, i, c).Some? && !SwitchMethod(v, i, c).value.MSEARCH?
    ensures var r := SwitchMethod(v, i, c).value; i <= |Name(v)| && i < |Name(r)| && SameUpTo(Name(v), Name(r), i) && Name(r)[i] == c
  {
    hide SwitchMethod, Name, SameUpTo;
    if v in {POST, PUT, CONNECT, MKCOL} { SwitchPrefixEarly(v, i, c); } else { SwitchPrefixLate(v, i, c); }
  }

  lemma SwitchToSearch(v: Method, i: nat, c: char)
    requires SwitchMethod(v, i, c).Some? && SwitchMethod(v, i, c).value.MSEARCH?
    ensures v.MKCOL? && i == 1 && c == '-'
  {
  }

  lemma FirstPrefix(c: char)
    requires FirstMethod(c).Some?
    ensures !FirstMethod(c).value.MSEARCH? && AtLetters(FirstMethod(c).value, [c])
  {
    hide AtLetters;
    var v := FirstMethod(c).value;
    assert Name(v) != "" && Name(v)[0] == c;
    BeginsOne(v, c);
  }

  lemma BeginsOne(v: Method, c: char)
    requires !v.MSEARCH? && Name(v) != "" && Name(v)[0] == c
    ensures AtLetters(v, [c])
  {
    hide Name;
    assert [c] == Name(v)[..1];
  }

  lemma LettersGrow(v: Method, w: string, c: char, r: Method)
    requires !v.MSEARCH? && !r.MSEARCH? && AtLetters(v, w) && |w| < |Name(r)| && SameUpTo(Name(v), Name(r), |w|) && Name(r)[|w|] == c
    ensures AtLetters(r, w + [c])
  {
    hide Name;
    assert w == Name(v)[..|w|];
    assert forall k | 0 <= k < |w| :: w[k] == Name(v)[k] == Name(r)[k];
    assert w + [c] == Name(r)[..|w| + 1];
  }

  /** One more letter, in the terms of the switch. */
  lemma NextLetter(p: Parser, w: string, c: char)
    requires p.st.ReqMethod? && p.index == |w| > 0 && AtLetters(p.verb, w) && c != ' '
    ensures var o := Switch(p, c); o.Fail? || (o.Go? && o.acts == [] && AtLetters(o.parser.verb, w + [c]) && o.parser == p.(verb := o.parser.verb, index := |w| + 1))
  {
    hide Name, SwitchMethod, SameUpTo, AtLetters;
    var o := OnReqMethod(p, c);
    assert Switch(p, c) == o;
    var v := p.verb;
    if v.MSEARCH? {
      SearchLetters(p, w, c);
    } else {
      WithinName(v, w);
      if |w| < |Name(v)| && c == Name(v)[|w|] {
        assert SameUpTo(Name(v), Name(v), |w|) by { Alike(Name(v), |w|); }
        LettersGrow(v, w, c, v);
      } else if o.Go? {
        assert SwitchMethod(v, |w|, c).Some?;
        var r := SwitchMethod(v, |w|, c).value;
        if r.MSEARCH? {
          SwitchToSearch(v, |w|, c);
          SearchBegins(w);
        } else {
          SwitchPrefix(v, |w|, c);
          LettersGrow(v, w, c, r);
        }
      }
    }
  }

  lemma Alike(a: string, i: nat)
    requires i <= |a|
    ensures SameUpTo(a, a, i)
  {
  }

  lemma WithinName(v: Method, w: string)
    requires !v.MSEARCH? && AtLetters(v, w)
    ensures |w| <= |Name(v)| && w == Name(v)[..|w|]
  {
  }

  lemma SearchBegins(w: string)
    requires AtLetters(MKCOL, w) && |w| == 1
    ensures AtLetters(MSEARCH, w + ['-'])
  {
    assert w == "MKCOL"[..1] == "M";
  }

  lemma SearchLetters(p: Parser, w: string, c: char)
    requires p.verb.MSEARCH? && p.index == |w| && AtLetters(MSEARCH, w) && c != ' '
    ensures var o := OnReqMethod(p, c); o.Fail? || (w == "M-" && c == '-' && o == Go(p.(index := 3), []) && AtLetters(MSEARCH, w + [c]))
  {
    assert Name(MSEARCH)[2] == '-' && Name(MSEARCH)[3] == ' ' && |Name(MSEARCH)| == 10;
    if w == "M-" && c == '-' { assert w + [c] == "M--"; }
  }

  lemma {:induction false} LettersRun(m: Machine, w: string)
    requires m.parser.st.StartReq? && w != "" && w[0] != CR && w[0] != LF && ' ' !in w && Run(m, w).Done?
    ensures var a := Run(m, w).m; a.parser.st.ReqMethod? && a.parser.index == |w| && AtLetters(a.parser.verb, w)
  {
    hide One, Run, Switch, AtLetters, Name, FirstMethod;
    var init, c := w[..|w| - 1], w[|w| - 1];
    assert w == init + [c];
    RunStops(m, init, c);
    RunOne(m, init, c);
    if init == "" {
      Empty(m);
      FirstLetter(m, c);
      assert w == [c];
    } else {
      LettersRun(m, init);
      var a := Run(m, init).m;
      NextLetter(Counted(a.parser), init, c);
      OneSwitch(a, c);
    }
  }

  /** What does not fail has not failed before. */
  lemma RunStops(m: Machine, s: string, b: char)
    ensures Run(m, s + [b]).Done? ==> Run(m, s).Done?
  {
    hide One, Run;
    if !Run(m, s).Done? { RunFails(m, s, b); }
  }

  lemma FirstLetter(m: Machine, c: char)
    requires m.parser.st.StartReq? && c != CR && c != LF && One(m, c).Done?
    ensures var a := One(m, c).m.parser; a.st.ReqMethod? && a.index == 1 && AtLetters(a.verb, [c])
  {
    hide Name, FirstMethod, AtLetters;
    if FirstMethod(c).Some? { FirstPrefix(c); }
  }

  lemma OneSwitch(m: Machine, c: char)
    requires m.parser.st.ReqMethod? && One(m, c).Done?
    ensures Switch(Counted(m.parser), c).Go? && One(m, c).m.parser == Switch(Counted(m.parser), c).parser
  {
    hide Switch, Perform;
    assert ParsingHeader(m.parser.st);
    assert !Switch(Counted(m.parser), c).Leave? by { NoLeave(Counted(m.parser), c); }
  }

  lemma NoLeave(p: Parser, c: char)
    requires p.st.ReqMethod?
    ensures !Switch(p, c).Leave?
  {
    hide Name, SwitchMethod;
  }

  /** A word without blanks is taken for a method exactly if it is printed for one other than M-SEARCH. */
  lemma MethodsExact(m: Machine, w: string)
    requires m.parser.st.StartReq? && w != "" && w[0] != CR && w[0] != LF && ' ' !in w && m.parser.nread + |w| < MAX_HEADER_SIZE
    ensures var r := Run(m, w + " ");
      r.Done? && r.m.parser.st.ReqSpacesBeforeUrl? <==> Known(w)
    ensures var r := Run(m, w + " ");
      Known(w) ==> Name(r.m.parser.verb) == w
  {
    hide One, Run, Known, Name, AtLetters, Via, Clean;
    RunOne(m, w, ' ');
    RunStops(m, w, ' ');
    assert w + [' '] == w + " ";
    if Known(w) {
      var v := TheMethod(w);
      ViaEnds(v);
      MethodRun(m, v, |w|);
      assert Name(v)[..|w|] == w;
      MethodEnds(Run(m, w).m);
    } else if Run(m, w).Done? {
      LettersRun(m, w);
      BlankEnds(Run(m, w).m, w);
    }
  }

  lemma TheMethod(w: string) returns (v: Method)
    requires Known(w)
    ensures !v.MSEARCH? && Name(v) == w
  {
    hide Name;
    v :| !v.MSEARCH? && Name(v) == w;
  }

  lemma BlankEnds(m: Machine, w: string)
    requires m.parser.st.ReqMethod? && m.parser.index == |w| && AtLetters(m.parser.verb, w) && !Known(w) && w != ""
    ensures var r := One(m, ' '); r.Done? ==> !r.m.parser.st.ReqSpacesBeforeUrl?
  {
    hide Name, SwitchMethod, AtLetters, Known;
    if m.parser.verb.MSEARCH? {
      SearchIsLonger(w);
    } else {
      WithinName(m.parser.verb, w);
      if |w| == |Name(m.parser.verb)| { IsKnown(m.parser.verb, w); }
    }
  }

  lemma IsKnown(v: Method, w: string)
    requires !v.MSEARCH? && Name(v)[..|Name(v)|] == w
    ensures Known(w)
  {
    hide Name;
    assert Name(v) == w;
  }

  lemma SearchIsLonger(w: string)
    requires AtLetters(MSEARCH, w)
    ensures |w| < |Name(MSEARCH)|
  {
  }

  // ------------------------------------------------------------------ URLs

  predicate Visible(s: string) { forall k | 0 <= k < |s| :: '!' <= s[k] <= '~' }

  predicate Scheme(s: string) { s != "" && forall k | 0 <= k < |s| :: IsAlpha(s[k]) }

  predicate AuthorityByte(c: char) { IsAlpha(c) || IsNum(c) || c in "-_.!~*'()" || c in "%;:&=+$," || c in "[]@" }

  /** Bytes of an authority, no two '@' next to each other. */
  predicate Authority(s: string) {
    (forall k | 0 <= k < |s| :: AuthorityByte(s[k])) && forall k | 0 < k < |s| :: !(s[k - 1] == '@' && s[k] == '@')
  }

  /** What may follow an authority: nothing, or a path or query, and then any visible bytes. */
  predicate Tail(s: string) { s != "" ==> (s[0] == '/' || s[0] == '?') && Visible(s) }

  predicate Origin(url: string) { url != "" && (url[0] == '/' || url[0] == '*') && Visible(url) }

  predicate AbsoluteAt(url: string, scheme: string, authority: string, tail: string) {
    url == scheme + "://" + authority + tail && Scheme(scheme) && Authority(authority) && Tail(tail) && authority + tail != ""
  }

  predicate Absolute(url: string) {
    exists i, j | 0 <= i <= j <= |url| && i + 3 <= j :: AbsoluteAt(url, url[..i], url[i + 3..j], url[j..])
  }

  /** Where the bytes `s` lead from a state. */
  function UrlFrom(st: State, s: string): State {
    if s == "" then st else ParseUrlChar(UrlFrom(st, s[..|s| - 1]), s[|s| - 1])
  }

  lemma {:induction false} UrlStateFrom(s: string)
    ensures UrlState(s) == UrlFrom(ReqSpacesBeforeUrl, s)
  {
    hide ParseUrlChar;
    if s != "" { UrlStateFrom(s[..|s| - 1]); }
  }

  lemma {:induction false} UrlJoin(st: State, s: string, t: string)
    ensures UrlFrom(st, s + t) == UrlFrom(UrlFrom(st, s), t)
  {
    hide ParseUrlChar;
    if t == "" {
      assert s + t == s;
    } else {
      UrlJoin(st, s, t[..|t| - 1]);
      assert (s + t)[..|s + t| - 1] == s + t[..|t| - 1];
    }
  }

  // from a grammatical URL to the state

  lemma PastAuthority(st: State, c: char)
    requires AfterAuthority(st)
    ensures AfterAuthority(ParseUrlChar(st, c)) <==> '!' <= c <= '~'
    ensures !AfterAuthority(ParseUrlChar(st, c)) ==> ParseUrlChar(st, c).Dead?
  {
  }

  lemma {:induction false} VisibleRuns(st: State, s: string)
    requires AfterAuthority(st) && Visible(s)
    ensures AfterAuthority(UrlFrom(st, s))
  {
    hide ParseUrlChar;
    if s != "" {
      VisibleRuns(st, s[..|s| - 1]);
      PastAuthority(UrlFrom(st, s[..|s| - 1]), s[|s| - 1]);
    }
  }

  lemma {:induction false} SchemeRuns(s: string)
    requires Scheme(s)
    ensures UrlFrom(ReqSpacesBeforeUrl, s).ReqSchema?
  {
    var init, c := s[..|s| - 1], s[|s| - 1];
    if init == "" { SchemeFirst(c); } else { SchemeRuns(init); SchemeNext(c); }
  }

  lemma SchemeFirst(c: char)
    ensures ParseUrlChar(ReqSpacesBeforeUrl, c) == if c == '/' || c == '*' then ReqPath else if IsAlpha(c) then ReqSchema else Dead
  {
  }

  lemma SchemeNext(c: char)
    ensures ParseUrlChar(ReqSchema, c) == if IsAlpha(c) then ReqSchema else if c == ':' then ReqSchemaSlash else Dead
  {
  }

  lemma SlashesNext(c: char)
    ensures ParseUrlChar(ReqSchemaSlash, c) == if c == '/' then ReqSchemaSlashSlash else Dead
    ensures ParseUrlChar(ReqSchemaSlashSlash, c) == if c == '/' then ReqServerStart else Dead
  {
  }

  predicate InAuthority(st: State) { st.ReqServerStart? || st.ReqServer? || st.ReqServerWithAt? }

  /** A byte of the authority, or the one behind it. */
  lemma AuthorityNext(st: State, c: char)
    requires InAuthority(st)
    ensures ParseUrlChar(st, c) ==
      if c == '/' then ReqPath else if c == '?' then ReqQueryStringStart
      else if c == '@' then (if st.ReqServerWithAt? then Dead else ReqServerWithAt)
      else if AuthorityByte(c) then ReqServer else Dead
  {
    AuthorityChar(c);
    BlankIsNone(c);
    hide AuthorityByte, ServerChar;
  }

  lemma AuthorityChar(c: char)
    ensures ServerChar(c) ==
      if c == '/' then ReqPath else if c == '?' then ReqQueryStringStart else if c == '@' then ReqServerWithAt
      else if AuthorityByte(c) then ReqServer else Dead
  {
  }

  lemma BlankIsNone(c: char)
    ensures c == ' ' || c == CR || c == LF || c == TAB || c == FORM_FEED ==> !AuthorityByte(c) && c != '/' && c != '?' && c != '@'
  {
  }

  lemma {:induction false} AuthorityRuns(s: string)
    requires Authority(s)
    ensures var st := UrlFrom(ReqServerStart, s);
      if s == "" then st.ReqServerStart? else if s[|s| - 1] == '@' then st.ReqServerWithAt? else st.ReqServer?
  {
    hide ParseUrlChar;
    if s != "" {
      var init, c := s[..|s| - 1], s[|s| - 1];
      AuthorityRuns(init);
      AuthorityNext(UrlFrom(ReqServerStart, init), c);
      assert AuthorityByte(c);
    }
  }

  lemma TailRuns(st: State, s: string)
    requires InAuthority(st) && Tail(s) && s != ""
    ensures AfterAuthority(UrlFrom(st, s))
  {
    hide ParseUrlChar;
    assert s == [s[0]] + s[1..];
    UrlJoin(st, [s[0]], s[1..]);
    AuthorityNext(st, s[0]);
    assert [s[0]][..0] == "";
    VisibleRuns(UrlFrom(st, [s[0]]), s[1..]);
  }

  lemma SlashesRun()
    ensures UrlFrom(ReqSchema, "://") == ReqServerStart
  {
    hide ParseUrlChar;
    SchemeNext(':');
    SlashesNext('/');
    assert "://"[..2] == ":/" && ":/"[..1] == ":" && ":"[..0] == "";
  }

  lemma AbsoluteRuns(url: string, scheme: string, authority: string, tail: string)
    requires AbsoluteAt(url, scheme, authority, tail)
    ensures UrlAccepted(url)
  {
    hide ParseUrlChar, UrlFrom, UrlState, Authority, Tail, Scheme;
    UrlStateFrom(url);
    SchemeRuns(scheme);
    SlashesRun();
    AuthorityRuns(authority);
    UrlJoin(ReqSpacesBeforeUrl, scheme, "://");
    UrlJoin(ReqSpacesBeforeUrl, scheme + "://", authority);
    UrlJoin(ReqSpacesBeforeUrl, scheme + "://" + authority, tail);
    var st := UrlFrom(ReqServerStart, authority);
    if tail == "" { NoBytes(st); } else { TailRuns(st, tail); }
  }

  lemma NoBytes(st: State)
    ensures UrlFrom(st, "") == st
  {
  }

  // from the state to the grammar

  /** What a live state says of the bytes before it. */
  ghost predicate Says(st: State, s: string) {
    match st
    case ReqSpacesBeforeUrl => s == ""
    case ReqSchema => Scheme(s)
    case ReqSchemaSlash => exists a :: Scheme(a) && s == a + ":"
    case ReqSchemaSlashSlash => exists a :: Scheme(a) && s == a + ":/"
    case ReqServerStart => exists a :: Scheme(a) && s == a + "://"
    case ReqServer => exists a, b :: InServer(s, a, b) && b[|b| - 1] != '@'
    case ReqServerWithAt => exists a, b :: InServer(s, a, b) && b[|b| - 1] == '@'
    case _ => AfterAuthority(st) ==> Origin(s) || exists a, b, t :: AbsoluteAt(s, a, b, t) && t != ""
  }

  predicate InServer(s: string, a: string, b: string) { Scheme(a) && Authority(b) && b != "" && s == a + "://" + b }

  lemma AuthorityGrows(a: string, b: string, c: char)
    requires Scheme(a) && Authority(b) && AuthorityByte(c) && !(c == '@' && b != "" && b[|b| - 1] == '@')
    ensures InServer(a + "://" + b + [c], a, b + [c]) && (b + [c])[|b|] == c
  {
    hide Scheme, AuthorityByte;
    assert a + "://" + b + [c] == a + "://" + (b + [c]);
  }

  lemma TailStarts(a: string, b: string, c: char)
    requires Scheme(a) && Authority(b) && (c == '/' || c == '?')
    ensures AbsoluteAt(a + "://" + b + [c], a, b, [c])
  {
  }

  lemma TailGrows(s: string, a: string, b: string, t: string, c: char)
    requires AbsoluteAt(s, a, b, t) && t != "" && '!' <= c <= '~'
    ensures AbsoluteAt(s + [c], a, b, t + [c])
  {
    hide Scheme, Authority;
    assert s + [c] == a + "://" + b + (t + [c]);
  }

  lemma FirstSays(c: char)
    ensures Says(ParseUrlChar(ReqSpacesBeforeUrl, c), [c])
  {
    SchemeFirst(c);
  }

  lemma SchemeSays(st: State, s: string, c: char)
    requires (st.ReqSchema? || st.ReqSchemaSlash? || st.ReqSchemaSlashSlash?) && Says(st, s)
    ensures Says(ParseUrlChar(st, c), s + [c])
  {
    hide ParseUrlChar;
    SlashesNext(c);
    SchemeNext(c);
    DeadSays(s + [c]);
    if st.ReqSchema? {
      SaidOfScheme(s + [c], s);
    } else if st.ReqSchemaSlash? {
      var a :| Scheme(a) && s == a + ":";
      assert a + ":" + "/" == a + ":/";
      SaidOfScheme(s + [c], a);
    } else {
      var a :| Scheme(a) && s == a + ":/";
      assert a + ":/" + "/" == a + "://";
      SaidOfScheme(s + [c], a);
    }
  }

  /** The scheme and the authority before such a state. */
  lemma Before(st: State, s: string) returns (a: string, b: string)
    requires InAuthority(st) && Says(st, s)
    ensures Scheme(a) && Authority(b) && s == a + "://" + b && (st.ReqServerWithAt? <==> b != "" && b[|b| - 1] == '@')
    ensures st.ReqServerStart? <==> b == ""
  {
    hide Scheme;
    if st.ReqServerStart? {
      a :| Scheme(a) && s == a + "://";
      b := "";
      assert a + "://" + b == s;
    } else if st.ReqServer? {
      a, b :| InServer(s, a, b) && b[|b| - 1] != '@';
    } else {
      a, b :| InServer(s, a, b) && b[|b| - 1] == '@';
    }
  }

  lemma ServerSays(st: State, s: string, c: char)
    requires InAuthority(st) && Says(st, s)
    ensures Says(ParseUrlChar(st, c), s + [c])
  {
    var a, b := Before(st, s);
    hide ParseUrlChar, Scheme, Authority, AuthorityByte, AbsoluteAt, Says, InServer;
    AuthorityNext(st, c);
    DeadSays(s + [c]);
    if c == '/' || c == '?' {
      TailStarts(a, b, c);
      SaidOfTail(ParseUrlChar(st, c), s + [c], a, b, [c]);
    } else if AuthorityByte(c) && !ParseUrlChar(st, c).Dead? {
      AuthorityGrows(a, b, c);
      SaidOfServer(s + [c], a, b + [c]);
    } else if c == '@' && !st.ReqServerWithAt? {
      AtIsByte();
      AuthorityGrows(a, b, c);
      SaidOfServer(s + [c], a, b + [c]);
    }
  }

  lemma SaidOfTail(st: State, s: string, a: string, b: string, t: string)
    requires AfterAuthority(st) && AbsoluteAt(s, a, b, t) && t != ""
    ensures Says(st, s)
  {
    hide AbsoluteAt;
  }

  lemma SaidOfServer(s: string, a: string, b: string)
    requires InServer(s, a, b) && b != ""
    ensures if b[|b| - 1] == '@' then Says(ReqServerWithAt, s) else Says(ReqServer, s)
  {
    hide InServer;
  }

  lemma SaidOfScheme(s: string, a: string)
    requires Scheme(a)
    ensures s == a + ":" ==> Says(ReqSchemaSlash, s)
    ensures s == a + ":/" ==> Says(ReqSchemaSlashSlash, s)
    ensures s == a + "://" ==> Says(ReqServerStart, s)
  {
    hide Scheme;
  }

  lemma AtIsByte()
    ensures AuthorityByte('@')
  {
  }

  lemma TailSays(st: State, s: string, c: char)
    requires AfterAuthority(st) && Says(st, s)
    ensures Says(ParseUrlChar(st, c), s + [c])
  {
    PastAuthority(st, c);
    hide ParseUrlChar, Scheme, Authority;
    if '!' <= c <= '~' {
      if Origin(s) {
        assert Origin(s + [c]);
      } else {
        var a, b, t :| AbsoluteAt(s, a, b, t) && t != "";
        TailGrows(s, a, b, t, c);
        assert t + [c] != "";
      }
    }
  }

  lemma DeadStays(c: char)
    ensures ParseUrlChar(Dead, c).Dead?
  {
  }

  lemma {:induction false} StateSays(s: string)
    ensures Says(UrlState(s), s) && (UrlState(s).Dead? || UrlState(s).ReqSpacesBeforeUrl? || InUrl(UrlState(s)))
  {
    hide ParseUrlChar, Says;
    if s == "" {
      NothingSays();
    } else {
      var init, c := s[..|s| - 1], s[|s| - 1];
      StateSays(init);
      assert s == init + [c];
      var st := UrlState(init);
      if st.Dead? { DeadStays(c); DeadSays(s); }
      else if InAuthority(st) { ServerSays(st, init, c); }
      else if AfterAuthority(st) { TailSays(st, init, c); }
      else if init == "" { FirstSays(c); }
      else { SchemeSays(st, init, c); }
    }
  }

  lemma NothingSays()
    ensures Says(ReqSpacesBeforeUrl, "")
  {
  }

  lemma DeadSays(s: string)
    ensures Says(Dead, s)
  {
  }

  lemma AbsoluteHas(url: string, a: string, b: string, t: string)
    requires AbsoluteAt(url, a, b, t)
    ensures Absolute(url)
  {
    var i, j := |a|, |a| + 3 + |b|;
    assert url[..i] == a && url[i + 3..j] == b && url[j..] == t;
    assert AbsoluteAt(url, url[..i], url[i + 3..j], url[j..]);
  }

  /** The URLs taken after a method other than CONNECT are exactly these: a path or an asterisk and visible bytes, or a scheme,
      "://", and then something, which may be an authority, a path or query, or both. */
  lemma UrlShape(url: string)
    ensures UrlAccepted(url) <==> Origin(url) || Absolute(url)
  {
    if UrlAccepted(url) {
      StateSays(url);
      var st := UrlState(url);
      hide UrlState;
      if InAuthority(st) {
        var a, b := Before(st, url);
        assert AbsoluteAt(url, a, b, "");
        AbsoluteHas(url, a, b, "");
      } else if !Origin(url) {
        var a, b, t :| AbsoluteAt(url, a, b, t) && t != "";
        AbsoluteHas(url, a, b, t);
      }
    }
    hide ParseUrlChar, UrlAccepted, UrlState;
    if Origin(url) { OriginForm(url); }
    if Absolute(url) {
      var i, j :| 0 <= i <= j <= |url| && i + 3 <= j && AbsoluteAt(url, url[..i], url[i + 3..j], url[j..]);
      AbsoluteRuns(url, url[..i], url[i + 3..j], url[j..]);
    }
  }

  lemma {:induction false} DeadRefused(m: Machine, url: string)
    requires m.parser.st.ReqSpacesBeforeUrl? && !m.parser.verb.CONNECT? && url != "" && m.parser.nread + |url| <= MAX_HEADER_SIZE
    requires UrlState(url).Dead? && ' ' !in url && CR !in url && LF !in url
    ensures !Run(m, url).Done?
  {
    hide One, Run, ParseUrlChar;
    var init, c := url[..|url| - 1], url[|url| - 1];
    assert url == init + [c];
    RunOne(m, init, c);
    StateSays(init);
    if init == "" {
      Empty(m);
      FirstRefused(m, c);
    } else if UrlState(init).Dead? {
      DeadRefused(m, init);
      RunFails(m, init, c);
    } else {
      UrlStateStarted(init);
      UrlRun(m, init);
      ByteRefused(Run(m, init).m, c);
    }
  }

  lemma UrlStateStarted(s: string)
    requires s != ""
    ensures !UrlState(s).ReqSpacesBeforeUrl?
  {
  }

  lemma FirstRefused(m: Machine, c: char)
    requires m.parser.st.ReqSpacesBeforeUrl? && !m.parser.verb.CONNECT? && c != ' ' && ParseUrlChar(m.parser.st, c).Dead?
    ensures One(m, c).Failed?
  {
    hide ParseUrlChar;
  }

  lemma ByteRefused(m: Machine, c: char)
    requires InUrl(m.parser.st) && c != ' ' && c != CR && c != LF && ParseUrlChar(m.parser.st, c).Dead?
    ensures One(m, c).Failed?
  {
    hide ParseUrlChar, Perform;
    InUrlSwitch(Counted(m.parser), c);
  }

  lemma InUrlSwitch(p: Parser, c: char)
    requires InUrl(p.st)
    ensures Switch(p, c) == OnUrl(p, c) && ParsingHeader(p.st)
  {
    hide OnUrl;
  }

  lemma TooEarly(m: Machine)
    requires m.parser.st.ReqSchema? || m.parser.st.ReqSchemaSlash? || m.parser.st.ReqSchemaSlashSlash? || m.parser.st.ReqServerStart?
    ensures One(m, ' ').Failed?
  {
    hide ParseUrlChar, Perform;
    InUrlSwitch(Counted(m.parser), ' ');
  }

  /** In a run: what stands between two blanks after the method is taken for the URL exactly if it has that shape. */
  lemma UrlsExact(m: Machine, url: string)
    requires m.parser.st.ReqSpacesBeforeUrl? && !m.parser.verb.CONNECT? && url != "" && m.parser.nread + |url| < MAX_HEADER_SIZE
    requires ' ' !in url && CR !in url && LF !in url
    ensures Run(m, url + " ").Done? <==> Origin(url) || Absolute(url)
    ensures var r := Run(m, url + " "); r.Done? ==> r.m.parser.st.ReqHttpStart? && r.m.ctx.url == m.ctx.url + url
  {
    hide One, Run, UrlState, Origin, Absolute;
    UrlShape(url);
    StateSays(url);
    UrlStateStarted(url);
    RunOne(m, url, ' ');
    RunStops(m, url, ' ');
    assert url + [' '] == url + " ";
    if UrlState(url).Dead? {
      DeadRefused(m, url);
    } else {
      UrlRun(m, url);
      var a := Run(m, url).m;
      if UrlAccepted(url) { UrlEnds(a); } else { TooEarly(a); }
    }
  }

  // ------------------------------------------------------------------ bytes of names and values

  predicate Letter(c: char) { 'a' <= c <= 'z' || 'A' <= c <= 'Z' }

  /** The bytes of a token, section 3.2.6 of RFC 7230. */
  predicate TokenByte(c: char) {
    Letter(c) || '0' <= c <= '9' || c == '!' || c == '#' || c == '$' || c == '%' || c == '&' || c == '\'' || c == '*' || c == '+'
    || c == '-' || c == '.' || c == '^' || c == '_' || c == '`' || c == '|' || c == '~'
  }

  /** In a header name exactly the bytes of a token and the colon behind them are taken. */
  lemma NameBytes(m: Machine, c: char)
    requires m.parser.st.Field? && m.parser.nread < MAX_HEADER_SIZE
    ensures One(m, c).Done? <==> TokenByte(c) || c == ':'
    ensures TokenByte(c) ==> One(m, c).m.parser.st.Field?
    ensures c == ':' ==> One(m, c).m.parser.st.DiscardWs?
  {
    hide MatchField, Perform;
    TokenIs(c);
    NameSwitch(Counted(m.parser), c);
  }

  lemma TokenIs(c: char)
    ensures Token(c) != '\0' <==> TokenByte(c)
    ensures 'A' <= c <= 'Z' ==> Token(c) as int == c as int + ('a' as int - 'A' as int)
    ensures TokenByte(c) && !('A' <= c <= 'Z') ==> Token(c) == c
  {
  }

  lemma NameSwitch(p: Parser, c: char)
    requires p.st.Field?
    ensures Switch(p, c) == OnField(p, c) && (Token(c) != '\0' ==> MatchField(p, c).st.Field?)
  {
    hide Token, Word;
  }
}
