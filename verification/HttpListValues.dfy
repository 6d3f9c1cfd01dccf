/** What the parser makes of a list of codings after Transfer-Encoding, and of a list of options after Connection. */
module HttpListValues {
  import opened HttpAutomaton
  import opened HttpHeaderLines

  // ------------------------------------------------------------------ lists as text

  function Small(c: char): char { if 'A' <= c <= 'Z' then (c as int + 32) as char else c }

  function SmallAll(t: string): (r: string)
    ensures |r| == |t|
  {
    seq(|t|, i requires 0 <= i < |t| => Small(t[i]))
  }

  predicate Blank(c: char) { c == ' ' || c == TAB }

  predicate Gap(g: string) { forall i | 0 <= i < |g| :: Blank(g[i]) }

  /** Items, with a comma and perhaps blanks before every further one. */
  function ListText(items: seq<string>, gaps: seq<string>): string
    requires |items| == |gaps| + 1
  {
    if gaps == [] then items[0]
    else ListText(items[..|items| - 1], gaps[..|gaps| - 1]) + "," + gaps[|gaps| - 1] + items[|items| - 1]
  }

  predicate ListOk(items: seq<string>, gaps: seq<string>)
  {
    |items| == |gaps| + 1 && (forall i | 0 <= i < |items| :: TokenName(items[i])) && forall i | 0 <= i < |gaps| :: Gap(gaps[i])
  }

  // ------------------------------------------------------------------ which items are seen

  /** Transfer-Encoding, or Connection. */
  datatype List = Codings | Options

  /** The one word that an item with this first letter could be. */
  function WordFor(list: List, c: char): string
  {
    match list
    case Codings => if c == 'c' then "chunked" else ""
    case Options => if c == 'k' then "keep-alive" else if c == 'c' then "close" else if c == 'u' then "upgrade" else ""
  }

  /** The item is such a word, in any letter case. */
  predicate Whole(list: List, t: string)
    requires t != ""
  {
    SmallAll(t) == WordFor(list, Small(t[0]))
  }

  /** The item is the beginning of such a word, or all of it. */
  predicate Begun(list: List, t: string)
    requires t != ""
  {
    SmallAll(t) <= WordFor(list, Small(t[0]))
  }

  /** How the parser takes an item: it looks at it, passes over it, or has lost the list for good. */
  datatype Look = Live | Passed | Lost

  /** A comma straight after the beginning of a word is taken for a mismatch and not for the end of the item. */
  predicate Swallows(list: List, t: string)
    requires t != ""
  {
    Begun(list, t) && (list.Codings? || !Whole(list, t))
  }

  /** How it takes the last of the items. One behind the beginning of a word is passed over; for codings so is one behind a
      whole "chunked"; and after a comma that ends an item a tab or an underscore, which the source tests for only once they
      are folded to lower case, loses the list. */
  function LookAt(list: List, items: seq<string>, gaps: seq<string>): Look
    requires |items| == |gaps| + 1 && forall i | 0 <= i < |items| :: items[i] != ""
  {
    if gaps == [] then Live
    else
      var init := items[..|items| - 1];
      var before := LookAt(list, init, gaps[..|gaps| - 1]);
      if before.Lost? then Lost
      else if before.Live? && Swallows(list, init[|init| - 1]) then Passed
      else if TAB in gaps[|gaps| - 1] || items[|items| - 1][0] == '_' then Lost
      else Live
  }

  /** Some item that is looked at is the word `w`. */
  predicate Seen(list: List, items: seq<string>, gaps: seq<string>, w: string)
    requires |items| == |gaps| + 1 && forall i | 0 <= i < |items| :: items[i] != ""
  {
    (LookAt(list, items, gaps).Live? && SmallAll(items[|items| - 1]) == w)
    || (gaps != [] && Seen(list, items[..|items| - 1], gaps[..|gaps| - 1], w))
  }

  /** With no tabs, no underscores in front, and no item before the last that is the beginning of "chunked", the last is looked at. */
  lemma {:induction false} LastIsLive(items: seq<string>, gaps: seq<string>)
    requires |items| == |gaps| + 1 && forall i | 0 <= i < |items| :: items[i] != ""
    requires (forall i | 0 <= i < |items| - 1 :: !Begun(Codings, items[i])) && forall i | 0 <= i < |gaps| :: TAB !in gaps[i] && items[i + 1][0] != '_'
    ensures LookAt(Codings, items, gaps).Live?
  {
    if gaps != [] {
      LastIsLive(items[..|items| - 1], gaps[..|gaps| - 1]);
      assert items[..|items| - 1][|items| - 2] == items[|items| - 2];
    }
  }

  // ------------------------------------------------------------------ the matcher on one item

  function Named(list: List): HeaderState { if list.Codings? then TransferEncoding else Connection }

  function Start(list: List): HeaderState { if list.Codings? then TokenStartTE else TokenStartConn }

  function Rest(list: List): HeaderState { if list.Codings? then TokenTE else TokenConn }

  /** The state that matches the word with this first letter. */
  function Matching(list: List, c: char): HeaderState
  {
    match list
    case Codings => MatchingChunked
    case Options => if c == 'k' then MatchingKeepAlive else if c == 'c' then MatchingClose else MatchingConnUpgrade
  }

  lemma WordMatches(list: List, c: char)
    requires WordFor(list, c) != ""
    ensures Word(Matching(list, c)) == WordFor(list, c) && MatchesToken(Matching(list, c)) && OtherToken(Matching(list, c)) == Rest(list)
    ensures |WordFor(list, c)| > 1 && WordFor(list, c)[0] == c
  {
  }

  /** Where the matcher stands once it has read the item `t`. */
  predicate AtItem(list: List, look: Look, t: string, q: Parser)
    requires t != ""
  {
    var c := Small(t[0]);
    if look.Lost? then q.hs.General?
    else if look.Live? && Begun(list, t) then
      if Whole(list, t) then q.hs == Found(Matching(list, c)) else q.hs == Matching(list, c) && q.index + 1 == |t|
    else q.hs == Rest(list)
  }

  /** Only the matcher and the three connection flags have moved. */
  predicate Moved(p: Parser, q: Parser) {
    q == p.(st := q.st, hs := q.hs, index := q.index, flags := q.flags)
    && q.flags == p.flags.(keepAlive := q.flags.keepAlive, close := q.flags.close, connUpgrade := q.flags.connUpgrade)
  }

  /** For bytes of a token both notions of lower case agree on the letters of the words. */
  lemma LowerIsSmall(c: char, x: char)
    requires Token(c) != '\0' && ('a' <= x <= 'z' || x == '-')
    ensures Lower(c) == x <==> Small(c) == x
  {
  }

  lemma TokenIsNone(c: char)
    requires Token(c) != '\0'
    ensures c != ' ' && c != TAB && c != ','
  {
  }

  lemma WordChars(list: List, c: char, i: nat)
    requires i < |WordFor(list, c)|
    ensures var x := WordFor(list, c)[i]; 'a' <= x <= 'z' || x == '-'
  {
    var w := WordFor(list, c);
    if i == 0 {} else if i == 1 {} else if i == 2 {} else if i == 3 {} else if i == 4 {} else if i == 5 {} else if i == 6 {}
    else if i == 7 {} else if i == 8 {} else {}
  }

  lemma SmallGrows(t: string, c: char)
    ensures SmallAll(t + [c]) == SmallAll(t) + [Small(c)]
  {
  }

  lemma SmallOne(c: char)
    ensures SmallAll([c]) == [Small(c)]
  {
  }

  /** One byte more of a word: it is the next letter or not. */
  lemma BegunGrows(list: List, t: string, c: char)
    requires t != "" && Token(c) != '\0'
    ensures var w := WordFor(list, Small(t[0]));
      Begun(list, t + [c]) <==> Begun(list, t) && |t| < |w| && Lower(c) == w[|t|]
    ensures Whole(list, t + [c]) <==> Begun(list, t + [c]) && |t| + 1 == |WordFor(list, Small(t[0]))|
  {
    var w := WordFor(list, Small(t[0]));
    SmallGrows(t, c);
    assert (t + [c])[0] == t[0];
    if |t| < |w| {
      WordChars(list, Small(t[0]), |t|);
      LowerIsSmall(c, w[|t|]);
      hide WordFor, Small, SmallAll, Lower;
      assert w[..|t| + 1] == w[..|t|] + [w[|t|]];
    }
  }

  /** A byte of a token goes on with the item. */
  lemma NextChar(list: List, look: Look, t: string, q: Parser, c: char)
    requires t != "" && Token(c) != '\0' && AtItem(list, look, t, q)
    ensures var o := MatchValue(q, c);
      o.Go? && AtItem(list, look, t + [c], o.parser) && o.parser == q.(hs := o.parser.hs, index := o.parser.index)
  {
    TokenIsNone(c);
    BegunGrows(list, t, c);
    assert (t + [c])[0] == t[0];
    var x := Small(t[0]);
    if look.Live? && Begun(list, t) {
      if WordFor(list, x) != "" { WordMatches(list, x); }
      hide Begun, Whole, Lower, Token, Small;
      if Whole(list, t) { AfterWhole(list, x, q, c); } else { InWord(list, x, t, q, c); }
    } else {
      RestGoesOn(list, q, c);
      hide Begun, Whole, Lower, Token, Small, MatchValue;
    }
  }

  lemma RestGoesOn(list: List, q: Parser, c: char)
    requires q.hs.General? || (q.hs == Rest(list) && c != ',')
    ensures MatchValue(q, c) == Go(q, [])
  {
  }

  lemma AfterWhole(list: List, x: char, q: Parser, c: char)
    requires q.hs == Found(Matching(list, x)) && c != ',' && c != ' '
    ensures var o := MatchValue(q, c); o.Go? && o.parser == q.(hs := Rest(list))
  {
  }

  lemma InWord(list: List, x: char, t: string, q: Parser, c: char)
    requires q.hs == Matching(list, x) && q.index + 1 == |t| && WordFor(list, x) != ""
    ensures var o := MatchValue(q, c); var w := WordFor(list, x);
      o.Go? && o.parser == q.(index := |t|, hs := if |t| >= |w| || Lower(c) != w[|t|] then Rest(list)
                                                 else if |t| == |w| - 1 then Found(Matching(list, x)) else q.hs)
  {
    WordMatches(list, x);
    NotTransferEncoding(list, x);
    hide Lower, WordFor, Word;
  }

  lemma NotTransferEncoding(list: List, x: char)
    ensures !Matching(list, x).MatchingTransferEncoding?
  {
  }

  /** The first byte of a value begins the first item. */
  lemma FirstChar(list: List, p: Parser, c: char)
    requires p.hs == Named(list) && Token(c) != '\0'
    ensures var o := OnValueStart(p, c);
      o == Go(o.parser, [Mark(ValueData)]) && AtItem(list, Live, [c], o.parser)
      && o.parser == p.(st := Value, hs := o.parser.hs, index := 0)
  {
    FirstLetter(list, c);
    OneLetter(list, c);
  }

  lemma FirstLetter(list: List, c: char)
    requires Token(c) != '\0'
    ensures list.Codings? ==> (Lower(c) == 'c' <==> Small(c) == 'c')
    ensures list.Options? ==> forall h: HeaderState ::
      FirstOfConnection(c, h) == if WordFor(list, Small(c)) != "" then Matching(list, Small(c)) else h
  {
    LowerIsSmall(c, 'c');
    LowerIsSmall(c, 'k');
    LowerIsSmall(c, 'u');
    hide Lower, Small;
  }

  lemma OneLetter(list: List, c: char)
    ensures Begun(list, [c]) <==> WordFor(list, Small(c)) != ""
    ensures !Whole(list, [c])
  {
    SmallOne(c);
    var w := WordFor(list, Small(c));
    if w != "" {
      WordMatches(list, Small(c));
      hide WordFor, Small, SmallAll;
      assert w[..1] == [w[0]];
    }
  }

  /** Where the matcher stands before an item, behind the comma and the blanks. */
  predicate BeforeItem(list: List, look: Look, q: Parser)
  {
    match look
    case Live => q.hs == Start(list) && q.index == 0
    case Passed => q.hs == Rest(list)
    case Lost => q.hs.General?
  }

  /** Beginning the next item. */
  lemma NextFirst(list: List, look: Look, q: Parser, c: char)
    requires Token(c) != '\0' && BeforeItem(list, look, q)
    ensures var o := MatchValue(q, c);
      o.Go? && AtItem(list, if look.Live? && c == '_' then Lost else look, [c], o.parser) && o.parser == q.(hs := o.parser.hs)
  {
    TokenIsNone(c);
    OneLetter(list, c);
    if look.Live? {
      FirstLetter(list, c);
      LowerTokens(c);
      hide Lower, Small, Token, Begun, Whole;
      if list.Codings? { CodingStarts(q, c); } else { OptionStarts(q, c); }
    } else {
      RestGoesOn(list, q, c);
      hide Lower, Small, Token, Begun, Whole, MatchValue;
    }
  }

  lemma LowerTokens(c: char)
    requires Token(c) != '\0'
    ensures Token(Lower(c)) != '\0' <==> c != '_'
    ensures Lower(c) != ' ' && Lower(c) != TAB && (c == '_' ==> Small(c) == '_' && Lower(c) as int == 127)
  {
  }

  lemma CodingStarts(q: Parser, c: char)
    requires q.hs.TokenStartTE? && Lower(c) != ' ' && Lower(c) != TAB
    ensures MatchValue(q, c) ==
      Go(q.(hs := if Lower(c) == 'c' then MatchingChunked else if Token(Lower(c)) != '\0' then TokenTE else General), [])
  {
    hide Lower, Token;
  }

  lemma OptionStarts(q: Parser, c: char)
    requires q.hs.TokenStartConn? && Lower(c) != ' ' && Lower(c) != TAB
    ensures MatchValue(q, c) == Go(q.(hs := FirstOfConnection(c, if Token(Lower(c)) != '\0' then TokenConn else General)), [])
  {
    hide Lower, Token, FirstOfConnection;
  }

  /** A blank in front of an item: a tab where an item is looked for loses the list. */
  lemma GapChar(list: List, look: Look, q: Parser, c: char)
    requires Blank(c) && BeforeItem(list, look, q)
    ensures MatchValue(q, c) == Go(if look.Live? && c == TAB then q.(hs := General) else q, [])
  {
    if look.Live? { BlankLower(c); }
  }

  lemma BlankLower(c: char)
    requires Blank(c)
    ensures if c == ' ' then Lower(c) == ' ' && Token(' ') == '\0' else Lower(c) == ')' && Token(')') == '\0'
  {
  }

  /** The comma behind an item. */
  lemma CommaEnds(list: List, look: Look, t: string, q: Parser)
    requires t != "" && AtItem(list, look, t, q)
    ensures var o := MatchValue(q, ',');
      && o.Go?
      && BeforeItem(list, if look.Lost? then Lost else if look.Live? && Swallows(list, t) then Passed else Live, o.parser)
      && o.parser == q.(hs := o.parser.hs, index := o.parser.index, flags := o.parser.flags)
      && o.parser.flags == if list.Options? && look.Live? && Whole(list, t) then OptionFlags(q.flags, SmallAll(t)) else q.flags
  {
    var x := Small(t[0]);
    if look.Live? && Begun(list, t) {
      if WordFor(list, x) != "" { WordMatches(list, x); }
      hide Begun, Small, SmallAll;
      if Whole(list, t) { WholeEnds(list, x, q); } else { WordCut(list, x, t, q); }
    } else {
      hide Begun, Whole, Small, SmallAll;
    }
  }

  /** What a Connection option says. */
  function OptionFlags(f: Flags, w: string): Flags
  {
    if w == "keep-alive" then f.(keepAlive := true)
    else if w == "close" then f.(close := true)
    else if w == "upgrade" then f.(connUpgrade := true)
    else f
  }

  lemma WholeEnds(list: List, x: char, q: Parser)
    requires q.hs == Found(Matching(list, x)) && WordFor(list, x) != ""
    ensures var o := MatchValue(q, ',');
      o.Go? && o.parser == if list.Codings? then q.(hs := TokenTE)
        else q.(hs := TokenStartConn, index := 0, flags := OptionFlags(q.flags, WordFor(list, x)))
  {
  }

  lemma WordCut(list: List, x: char, t: string, q: Parser)
    requires q.hs == Matching(list, x) && q.index + 1 == |t| && WordFor(list, x) != ""
    ensures var o := MatchValue(q, ','); o.Go? && o.parser == q.(index := |t|, hs := Rest(list))
  {
    InWord(list, x, t, q, ',');
    assert Lower(',') == ',';
    if |t| < |WordFor(list, x)| { WordChars(list, x, |t|); }
    hide MatchValue, Lower, WordFor;
  }

  // ------------------------------------------------------------------ whole lists

  /** Bytes of a value after its first. */
  function Fold(q: Parser, s: string): Option<Parser>
  {
    if s == "" then Some(q)
    else match Fold(q, s[..|s| - 1])
      case None => None
      case Some(a) => var o := MatchValue(a, s[|s| - 1]); if o.Fail? then None else Some(o.parser)
  }

  /** A whole value. */
  function Reading(p: Parser, v: string): Option<Parser>
    requires v != ""
  {
    var o := OnValueStart(p, v[0]);
    if o.Fail? then None else Fold(o.parser, v[1..])
  }

  lemma {:induction false} FoldJoin(q: Parser, s: string, t: string)
    requires Fold(q, s).Some?
    ensures Fold(q, s + t) == Fold(Fold(q, s).value, t)
  {
    hide MatchValue;
    if t == "" {
      assert s + t == s;
    } else {
      FoldJoin(q, s, t[..|t| - 1]);
      assert (s + t)[..|s + t| - 1] == s + t[..|t| - 1];
    }
  }

  lemma FoldOne(q: Parser, c: char)
    ensures var o := MatchValue(q, c); Fold(q, [c]) == if o.Fail? then None else Some(o.parser)
  {
    hide MatchValue;
    assert [c][..0] == "";
    assert Fold(q, "") == Some(q);
  }

  predicate Tokens(s: string) { forall i | 0 <= i < |s| :: Token(s[i]) != '\0' }

  lemma {:induction false} ItemFold(list: List, look: Look, t: string, q: Parser, s: string)
    requires t != "" && AtItem(list, look, t, q) && Tokens(s)
    ensures var r := Fold(q, s);
      r.Some? && AtItem(list, look, t + s, r.value) && r.value == q.(hs := r.value.hs, index := r.value.index)
  {
    hide MatchValue, Token, AtItem;
    if s == "" {
      assert t + s == t;
    } else {
      var init, c := s[..|s| - 1], s[|s| - 1];
      ItemFold(list, look, t, q, init);
      NextChar(list, look, t + init, Fold(q, init).value, c);
      assert t + s == t + init + [c];
    }
  }

  function Crossed(look: Look, g: string): Look { if look.Live? && TAB in g then Lost else look }

  lemma {:induction false} GapFold(list: List, look: Look, q: Parser, g: string)
    requires BeforeItem(list, look, q) && Gap(g)
    ensures var r := Fold(q, g); r.Some? && BeforeItem(list, Crossed(look, g), r.value) && r.value == q.(hs := r.value.hs)
  {
    hide MatchValue;
    if g != "" {
      var init, c := g[..|g| - 1], g[|g| - 1];
      assert g == init + [c];
      GapFold(list, look, q, init);
      GapChar(list, Crossed(look, init), Fold(q, init).value, c);
    }
  }

  /** How the parser takes the item `u` behind the item `t` and the blanks `g`. */
  function NextLook(list: List, look: Look, t: string, g: string, u: string): Look
    requires t != "" && u != ""
  {
    if look.Lost? then Lost
    else if look.Live? && Swallows(list, t) then Passed
    else if TAB in g || u[0] == '_' then Lost
    else Live
  }

  function CommaFlags(list: List, look: Look, t: string, f: Flags): Flags
    requires t != ""
  {
    if list.Options? && look.Live? && Whole(list, t) then OptionFlags(f, SmallAll(t)) else f
  }

  lemma NextItem(list: List, look: Look, t: string, q: Parser, g: string, u: string)
    requires t != "" && AtItem(list, look, t, q) && Gap(g) && TokenName(u)
    ensures var r := Fold(q, "," + g + u);
      r.Some? && AtItem(list, NextLook(list, look, t, g, u), u, r.value)
      && r.value == q.(hs := r.value.hs, index := r.value.index, flags := CommaFlags(list, look, t, q.flags))
  {
    hide MatchValue, AtItem, BeforeItem, Swallows, OptionFlags, Token, Whole;
    CommaEnds(list, look, t, q);
    var l1 := if look.Lost? then Lost else if look.Live? && Swallows(list, t) then Passed else Live;
    var a := MatchValue(q, ',').parser;
    FoldOne(q, ',');
    GapFold(list, l1, a, g);
    FoldJoin(q, ",", g);
    var b := Fold(a, g).value;
    NextFirst(list, Crossed(l1, g), b, u[0]);
    var c := MatchValue(b, u[0]).parser;
    FoldOne(b, u[0]);
    FoldJoin(q, "," + g, [u[0]]);
    ItemFold(list, NextLook(list, look, t, g, u), [u[0]], c, u[1..]);
    FoldJoin(q, "," + g + [u[0]], u[1..]);
    assert [u[0]] + u[1..] == u && "," + g + [u[0]] + u[1..] == "," + g + u;
  }

  /** The flags once every item but the last has ended. */
  function FlagsSoFar(list: List, f: Flags, items: seq<string>, gaps: seq<string>): Flags
    requires |items| == |gaps| + 1 && forall i | 0 <= i < |items| :: items[i] != ""
  {
    if gaps == [] then f
    else
      var init, less := items[..|items| - 1], gaps[..|gaps| - 1];
      CommaFlags(list, LookAt(list, init, less), init[|init| - 1], FlagsSoFar(list, f, init, less))
  }

  /** Reading a list leaves the matcher at its last item, with the flags of the items before. */
  lemma {:induction false} ListReads(list: List, p: Parser, items: seq<string>, gaps: seq<string>)
    requires p.hs == Named(list) && ListOk(items, gaps)
    ensures ListText(items, gaps) != ""
    ensures var r := Reading(p, ListText(items, gaps));
      r.Some? && AtItem(list, LookAt(list, items, gaps), items[|items| - 1], r.value)
      && r.value == p.(st := Value, hs := r.value.hs, index := r.value.index, flags := FlagsSoFar(list, p.flags, items, gaps))
    decreases |gaps|
  {
    hide MatchValue, AtItem, OnValueStart, CommaFlags, Swallows, Token;
    var v := ListText(items, gaps);
    if gaps == [] {
      var t := items[0];
      assert TokenName(t);
      FirstChar(list, p, t[0]);
      ItemFold(list, Live, [t[0]], OnValueStart(p, t[0]).parser, t[1..]);
      assert [t[0]] + t[1..] == t;
    } else {
      var init, less, g, u := items[..|items| - 1], gaps[..|gaps| - 1], gaps[|gaps| - 1], items[|items| - 1];
      ListReads(list, p, init, less);
      var w := ListText(init, less);
      var a := Reading(p, w).value;
      NextItem(list, LookAt(list, init, less), init[|init| - 1], a, g, u);
      assert v == w + ("," + g + u);
      ReadingJoin(p, w, "," + g + u);
    }
  }

  lemma ReadingJoin(p: Parser, v: string, s: string)
    requires v != "" && Reading(p, v).Some?
    ensures Reading(p, v + s) == Fold(Reading(p, v).value, s)
  {
    hide MatchValue, OnValueStart;
    assert (v + s)[0] == v[0] && (v + s)[1..] == v[1..] + s;
    FoldJoin(OnValueStart(p, v[0]).parser, v[1..], s);
  }

  /** The flags once the header is finished. */
  function FlagsAll(list: List, f: Flags, items: seq<string>, gaps: seq<string>): Flags
    requires |items| == |gaps| + 1 && forall i | 0 <= i < |items| :: items[i] != ""
  {
    CommaFlags(list, LookAt(list, items, gaps), items[|items| - 1], FlagsSoFar(list, f, items, gaps))
  }

  /** The end of the header: the chunked flag is set exactly when the last coding is looked at and is "chunked", and the
      flags of the Connection options are those of all its items. */
  lemma ListEnds(list: List, f: Flags, items: seq<string>, gaps: seq<string>, q: Parser)
    requires |items| == |gaps| + 1 && forall i | 0 <= i < |items| :: items[i] != ""
    requires AtItem(list, LookAt(list, items, gaps), items[|items| - 1], q) && q.flags == FlagsSoFar(list, f, items, gaps)
    ensures FinishHeader(q) == q.(st := FieldStart, flags := FinishHeader(q).flags)
    ensures list.Codings? ==>
      FinishHeader(q).flags == q.flags.(chunked := q.flags.chunked || (LookAt(list, items, gaps).Live? && SmallAll(items[|items| - 1]) == "chunked"))
    ensures list.Options? ==> FinishHeader(q).flags == FlagsAll(list, f, items, gaps)
  {
    var look, t := LookAt(list, items, gaps), items[|items| - 1];
    var x := Small(t[0]);
    FinishFrame(q);
    hide LookAt, FlagsSoFar, FinishHeader, OptionFlags;
    if look.Live? && Begun(list, t) {
      if WordFor(list, x) != "" { WordMatches(list, x); }
      ChunkedWord(list, t);
      hide Begun, Small, SmallAll;
      if Whole(list, t) { WholeFinishes(list, x, q); } else { PartFinishes(list, x, q); }
    } else {
      ChunkedBegins(list, t);
      RestFinishes(list, q);
      hide Begun, Whole, Small, SmallAll;
    }
  }

  lemma FinishFrame(q: Parser)
    ensures FinishHeader(q) == q.(st := FieldStart, flags := FinishHeader(q).flags)
  {
  }

  lemma RestFinishes(list: List, q: Parser)
    requires q.hs == Rest(list) || q.hs.General?
    ensures FinishHeader(q).flags == q.flags
  {
  }

  lemma ChunkedWord(list: List, t: string)
    requires t != ""
    ensures list.Codings? ==> (Whole(list, t) <==> SmallAll(t) == "chunked")
    ensures Whole(list, t) ==> SmallAll(t) == WordFor(list, Small(t[0]))
  {
    if SmallAll(t) == "chunked" { assert SmallAll(t)[0] == 'c'; }
  }

  lemma ChunkedBegins(list: List, t: string)
    requires t != ""
    ensures Whole(list, t) ==> Begun(list, t)
    ensures list.Codings? && SmallAll(t) == "chunked" ==> Whole(list, t)
  {
    ChunkedWord(list, t);
  }

  lemma WholeFinishes(list: List, x: char, q: Parser)
    requires q.hs == Found(Matching(list, x)) && WordFor(list, x) != ""
    ensures FinishHeader(q).flags == if list.Codings? then q.flags.(chunked := true) else OptionFlags(q.flags, WordFor(list, x))
  {
  }

  lemma PartFinishes(list: List, x: char, q: Parser)
    requires q.hs == Matching(list, x)
    ensures FinishHeader(q).flags == q.flags
  {
  }

  // ------------------------------------------------------------------ what the flags say

  predicate IsOption(w: string) { w == "close" || w == "keep-alive" || w == "upgrade" }

  lemma OptionIsWord(t: string, w: string)
    requires t != "" && IsOption(w)
    ensures Whole(Options, t) && SmallAll(t) == w <==> SmallAll(t) == w
  {
    if SmallAll(t) == w { assert SmallAll(t)[0] == w[0]; }
  }

  /** The three words of Connection, each with the flag it sets: the flag is set exactly when some item that is looked at is
      the word, in any letter case. */
  lemma {:induction false} OptionsSeen(f: Flags, items: seq<string>, gaps: seq<string>)
    requires |items| == |gaps| + 1 && forall i | 0 <= i < |items| :: items[i] != ""
    ensures var a := FlagsAll(Options, f, items, gaps);
      && a.close == (f.close || Seen(Options, items, gaps, "close"))
      && a.keepAlive == (f.keepAlive || Seen(Options, items, gaps, "keep-alive"))
      && a.connUpgrade == (f.connUpgrade || Seen(Options, items, gaps, "upgrade"))
      && a == f.(close := a.close, keepAlive := a.keepAlive, connUpgrade := a.connUpgrade)
    decreases |gaps|
  {
    hide Whole, SmallAll, LookAt, CommaFlags;
    var t := items[|items| - 1];
    if gaps != [] { OptionsSeen(f, items[..|items| - 1], gaps[..|gaps| - 1]); }
    CommaSays(LookAt(Options, items, gaps), t, FlagsSoFar(Options, f, items, gaps));
  }

  lemma CommaSays(look: Look, t: string, f: Flags)
    requires t != ""
    ensures var a := CommaFlags(Options, look, t, f);
      && a.close == (f.close || (look.Live? && SmallAll(t) == "close"))
      && a.keepAlive == (f.keepAlive || (look.Live? && SmallAll(t) == "keep-alive"))
      && a.connUpgrade == (f.connUpgrade || (look.Live? && SmallAll(t) == "upgrade"))
      && a == f.(close := a.close, keepAlive := a.keepAlive, connUpgrade := a.connUpgrade)
  {
    OptionIsWord(t, "close");
    OptionIsWord(t, "keep-alive");
    OptionIsWord(t, "upgrade");
    hide Whole, SmallAll;
  }
}
