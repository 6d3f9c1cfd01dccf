/** The byte automaton inside http_parser_execute: what one byte does, apart from the marks and bulk loops around it. */
module HttpAutomaton {

  /** A byte is a char below 256. */
  const CR := '\r'
  const LF := '\n'
  const TAB := '\t'
  const FORM_FEED := '\U{0c}'

  const MAX_HEADER_SIZE := 80 * 1024
  const ULLONG_MAX := 0xffff_ffff_ffff_ffff

  datatype Kind = Request | Response | Both

  datatype Method =
    | DELETE | GET | HEAD | POST | PUT | CONNECT | OPTIONS | TRACE
    | COPY | LOCK | MKCOL | MOVE | PROPFIND | PROPPATCH | SEARCH | UNLOCK | BIND | REBIND | UNBIND | ACL
    | REPORT | MKACTIVITY | CHECKOUT | MERGE
    | MSEARCH | NOTIFY | SUBSCRIBE | UNSUBSCRIBE
    | PATCH | PURGE | MKCALENDAR | LINK | UNLINK | SOURCE

  /** The method table. Its M-SEARCH entry has blanks around the dash. */
  function Name(m: Method): string {
    match m
    case DELETE => "DELETE" case GET => "GET" case HEAD => "HEAD" case POST => "POST" case PUT => "PUT"
    case CONNECT => "CONNECT" case OPTIONS => "OPTIONS" case TRACE => "TRACE"
    case COPY => "COPY" case LOCK => "LOCK" case MKCOL => "MKCOL" case MOVE => "MOVE"
    case PROPFIND => "PROPFIND" case PROPPATCH => "PROPPATCH" case SEARCH => "SEARCH" case UNLOCK => "UNLOCK"
    case BIND => "BIND" case REBIND => "REBIND" case UNBIND => "UNBIND" case ACL => "ACL"
    case REPORT => "REPORT" case MKACTIVITY => "MKACTIVITY" case CHECKOUT => "CHECKOUT" case MERGE => "MERGE"
    case MSEARCH => "M - SEARCH" case NOTIFY => "NOTIFY" case SUBSCRIBE => "SUBSCRIBE"
    case UNSUBSCRIBE => "UNSUBSCRIBE" case PATCH => "PATCH" case PURGE => "PURGE"
    case MKCALENDAR => "MKCALENDAR" case LINK => "LINK" case UNLINK => "UNLINK" case SOURCE => "SOURCE"
  }

  datatype Errno =
    | InvalidEofState | HeaderOverflow | ClosedConnection | InvalidVersion | InvalidStatus | InvalidMethod | InvalidUrl
    | LfExpected | InvalidHeaderToken | InvalidContentLength | UnexpectedContentLength | InvalidChunkSize
    | InvalidConstant | InvalidInternalState | Strict | InvalidTransferEncoding

  datatype State =
    | Dead
    | StartReqOrRes | ResOrRespH
    | StartRes | ResH | ResHT | ResHTT | ResHTTP | ResMajor | ResDot | ResMinor | ResEnd
    | ResFirstStatusCode | ResStatusCode | ResStatusStart | ResStatus | ResLineAlmostDone
    | StartReq | ReqMethod | ReqSpacesBeforeUrl
    | ReqSchema | ReqSchemaSlash | ReqSchemaSlashSlash | ReqServerStart | ReqServer | ReqServerWithAt
    | ReqPath | ReqQueryStringStart | ReqQueryString | ReqFragmentStart | ReqFragment
    | ReqHttpStart | ReqH | ReqHT | ReqHTT | ReqHTTP | ReqI | ReqIC | ReqMajor | ReqDot | ReqMinor | ReqEnd
    | ReqLineAlmostDone
    | FieldStart | Field
    | DiscardWs | DiscardWsAlmostDone | DiscardLws | ValueStart | Value | ValueLws | HeaderAlmostDone
    | ChunkSizeStart | ChunkSize | ChunkParameters | ChunkSizeAlmostDone
    | HeadersAlmostDone | HeadersDone
    | ChunkData | ChunkDataAlmostDone | ChunkDataDone | BodyIdentity | BodyIdentityEof | MessageDone

  datatype HeaderState =
    | General | C | CO | CON
    | MatchingConnection | MatchingProxyConnection | MatchingContentLength | MatchingTransferEncoding | MatchingUpgrade
    | Connection | ContentLength | ContentLengthNum | ContentLengthWs | TransferEncoding | Upgrade
    | TokenStartTE | MatchingChunked | TokenTE
    | TokenStartConn | MatchingKeepAlive | MatchingClose | MatchingConnUpgrade | TokenConn
    | Chunked | KeepAlive | Close | ConnUpgrade

  datatype Flags = Flags(chunked: bool, keepAlive: bool, close: bool, connUpgrade: bool, trailing: bool, upgrade: bool,
    contentLength: bool)

  const NO_FLAGS := Flags(false, false, false, false, false, false, false)

  /** http_parser, without errno (an error ends a run); `te` is the one extra flag. */
  datatype Parser = Parser(
    kind: Kind, st: State, hs: HeaderState, index: nat, flags: Flags, te: bool, lenient: bool,
    nread: nat, contentLength: nat, major: nat, minor: nat, status: nat, verb: Method, upgrade: bool)

  function Fresh(kind: Kind): Parser {
    var st := if kind.Request? then StartReq else if kind.Response? then StartRes else StartReqOrRes;
    Parser(kind, st, General, 0, NO_FLAGS, false, false, 0, 0, 0, 0, 0, DELETE, false)
  }

  /** What a byte makes the surrounding code do with its marks and callbacks, in order. */
  datatype Data = Url | Status | FieldData | ValueData | Body

  datatype Act =
    | Mark(data: Data)       // MARK
    | Flush(data: Data)      // CALLBACK_DATA up to, not including, this byte
    | FlushThis(data: Data)  // the same with this byte
    | HeadersComplete
    | MessageComplete

  datatype Outcome =
    | Go(parser: Parser, acts: seq<Act>)
    | Leave(parser: Parser, acts: seq<Act>)  // upgraded: execute returns before the end of the data
    | Fail(errno: Errno)

  function Then(acts: seq<Act>, o: Outcome): Outcome {
    match o
    case Go(p, more) => Go(p, acts + more)
    case Leave(p, more) => Leave(p, acts + more)
    case Fail(_) => o
  }

  // ------------------------------------------------------------------ character classes

  /** The byte with 0x20 set. */
  function Lower(c: char): char {
    var n := c as int;
    if n < 32 || 64 <= n < 96 || 128 <= n < 160 || 192 <= n < 224 then (n + 32) as char else c
  }

  predicate IsAlpha(c: char) { 'a' <= Lower(c) <= 'z' }

  predicate IsNum(c: char) { '0' <= c <= '9' }

  function Digit(c: char): nat
    requires IsNum(c)
  {
    c as int - '0' as int
  }

  predicate IsMark(c: char) { c in "-_.!~*'()" }

  predicate IsUserinfo(c: char) { IsAlpha(c) || IsNum(c) || IsMark(c) || c in "%;:&=+$," }

  /** The tokens table: a token byte in lower case, or NUL. */
  function Token(c: char): char {
    if 'A' <= c <= 'Z' then Lower(c)
    else if 'a' <= c <= 'z' || IsNum(c) || c in "!#$%&'*+-.^_`|~" then c
    else '\0'
  }

  /** The normal_url_char bit map. */
  predicate IsUrlChar(c: char) { '!' <= c <= '~' && c != '#' && c != '?' }

  predicate IsHeaderChar(c: char) { c == CR || c == LF || c == TAB || (' ' <= c && c as int != 127) }

  /** The unhex table has 128 initialisers, so a byte above them reads as the digit 0. */
  function Unhex(c: char): int {
    if IsNum(c) then c as int - '0' as int
    else if 'a' <= c <= 'f' then c as int - 'a' as int + 10
    else if 'A' <= c <= 'F' then c as int - 'A' as int + 10
    else if c as int >= 128 then 0
    else -1
  }

  // ------------------------------------------------------------------ the request line

  predicate InUrl(st: State) {
    st.ReqSchema? || st.ReqSchemaSlash? || st.ReqSchemaSlashSlash? || st.ReqServerStart? || st.ReqServer? ||
    st.ReqServerWithAt? || st.ReqPath? || st.ReqQueryStringStart? || st.ReqQueryString? || st.ReqFragmentStart? ||
    st.ReqFragment?
  }

  /** parse_url_char: a byte keeps the URL going or kills it. */
  function ParseUrlChar(st: State, c: char): (r: State)
    ensures r.Dead? || InUrl(r)
  {
    if c in " \r\n" || c == TAB || c == FORM_FEED then Dead else
    match st
    case ReqSpacesBeforeUrl =>
      if c == '/' || c == '*' then ReqPath else if IsAlpha(c) then ReqSchema else Dead
    case ReqSchema => if IsAlpha(c) then st else if c == ':' then ReqSchemaSlash else Dead
    case ReqSchemaSlash => if c == '/' then ReqSchemaSlashSlash else Dead
    case ReqSchemaSlashSlash => if c == '/' then ReqServerStart else Dead
    case ReqServerWithAt => if c == '@' then Dead else ServerChar(c)
    case ReqServerStart => ServerChar(c)
    case ReqServer => ServerChar(c)
    case ReqPath => if IsUrlChar(c) then st else if c == '?' then ReqQueryStringStart else if c == '#' then ReqFragmentStart else Dead
    case ReqQueryStringStart => QueryChar(c)
    case ReqQueryString => QueryChar(c)
    case ReqFragmentStart => if IsUrlChar(c) || c == '?' then ReqFragment else if c == '#' then st else Dead
    case ReqFragment => if IsUrlChar(c) || c == '?' || c == '#' then st else Dead
    case _ => Dead
  }

  function ServerChar(c: char): State {
    if c == '/' then ReqPath
    else if c == '?' then ReqQueryStringStart
    else if c == '@' then ReqServerWithAt
    else if IsUserinfo(c) || c == '[' || c == ']' then ReqServer
    else Dead
  }

  function QueryChar(c: char): State {
    if IsUrlChar(c) || c == '?' then ReqQueryString else if c == '#' then ReqFragmentStart else Dead
  }

  datatype Option<T> = None | Some(value: T)

  function FirstMethod(c: char): Option<Method> {
    match c
    case 'A' => Some(ACL) case 'B' => Some(BIND) case 'C' => Some(CONNECT) case 'D' => Some(DELETE) case 'G' => Some(GET)
    case 'H' => Some(HEAD) case 'L' => Some(LOCK) case 'M' => Some(MKCOL) case 'N' => Some(NOTIFY) case 'O' => Some(OPTIONS)
    case 'P' => Some(POST) case 'R' => Some(REPORT) case 'S' => Some(SUBSCRIBE) case 'T' => Some(TRACE) case 'U' => Some(UNLOCK)
    case _ => None
  }

  /** The method a byte that does not match at `i` switches to. */
  function SwitchMethod(m: Method, i: nat, c: char): (r: Option<Method>)
    ensures r.Some? ==> i < |Name(r.value)|
  {
    match m
    case POST => if i != 1 then None else if c == 'U' then Some(PUT) else if c == 'A' then Some(PATCH)
      else if c == 'R' then Some(PROPFIND) else None
    case PUT => if i == 2 && c == 'R' then Some(PURGE) else None
    case CONNECT => if i == 1 && c == 'H' then Some(CHECKOUT) else if i == 2 && c == 'P' then Some(COPY) else None
    case MKCOL =>
      if i == 1 && c == 'O' then Some(MOVE) else if i == 1 && c == 'E' then Some(MERGE)
      else if i == 1 && c == '-' then Some(MSEARCH) else if i == 2 && c == 'A' then Some(MKACTIVITY)
      else if i == 3 && c == 'A' then Some(MKCALENDAR) else None
    case SUBSCRIBE => if i == 1 && c == 'E' then Some(SEARCH) else if i == 1 && c == 'O' then Some(SOURCE) else None
    case REPORT => if i == 2 && c == 'B' then Some(REBIND) else None
    case PROPFIND => if i == 4 && c == 'P' then Some(PROPPATCH) else None
    case LOCK => if i == 1 && c == 'I' then Some(LINK) else None
    case UNLOCK => if i == 2 && c == 'S' then Some(UNSUBSCRIBE) else if i == 2 && c == 'B' then Some(UNBIND)
      else if i == 3 && c == 'I' then Some(UNLINK) else None
    case _ => None
  }

  function Clean(p: Parser): Parser { p.(flags := NO_FLAGS, te := false, contentLength := ULLONG_MAX) }

  function OnStartReqOrRes(p: Parser, c: char): Outcome {
    if c == CR || c == LF then Go(p, [])
    else if c == 'H' then Go(Clean(p).(st := ResOrRespH), [])
    else OnStartReq(Clean(p).(kind := Request, st := StartReq), c)
  }

  function OnResOrRespH(p: Parser, c: char): Outcome {
    if c == 'T' then Go(p.(kind := Response, st := ResHT), [])
    else if c == 'E' then Go(p.(kind := Request, verb := HEAD, index := 2, st := ReqMethod), [])
    else Fail(InvalidConstant)
  }

  function OnStartRes(p: Parser, c: char): Outcome {
    if c == CR || c == LF then Go(p, []) 
    else if c == 'H' then Go(Clean(p).(st := ResH), [])
    else Fail(InvalidConstant)
  }

  function OnStartReq(p: Parser, c: char): Outcome {
    if c == CR || c == LF then Go(p, [])
    else match FirstMethod(c)
      case None => Fail(InvalidMethod)
      case Some(m) => Go(Clean(p).(verb := m, index := 1, st := ReqMethod), [])
  }

  function OnReqMethod(p: Parser, c: char): Outcome {
    var name := Name(p.verb);
    if c == '\0' then Fail(InvalidMethod)
    else if c == ' ' && p.index == |name| then Go(p.(st := ReqSpacesBeforeUrl, index := p.index + 1), [])
    else if p.index < |name| && c == name[p.index] then Go(p.(index := p.index + 1), [])
    else if ('A' <= c <= 'Z') || c == '-' then
      match SwitchMethod(p.verb, p.index, c)
      case None => Fail(InvalidMethod)
      case Some(m) => Go(p.(verb := m, index := p.index + 1), [])
    else Fail(InvalidMethod)
  }

  function UrlByte(p: Parser, from: State, c: char, acts: seq<Act>): Outcome {
    var st := ParseUrlChar(from, c);
    if st.Dead? then Fail(InvalidUrl) else Go(p.(st := st), acts)
  }

  function OnSpacesBeforeUrl(p: Parser, c: char): Outcome {
    if c == ' ' then Go(p, [])
    else UrlByte(p, if p.verb.CONNECT? then ReqServerStart else ReqSpacesBeforeUrl, c, [Mark(Url)])
  }

  /** The URL may end in the server, path, query and fragment states, not before. */
  function OnUrl(p: Parser, c: char): Outcome {
    if p.st.ReqSchema? || p.st.ReqSchemaSlash? || p.st.ReqSchemaSlashSlash? || p.st.ReqServerStart? then
      if c in " \r\n" then Fail(InvalidUrl) else UrlByte(p, p.st, c, [])
    else if c == ' ' then Go(p.(st := ReqHttpStart), [Flush(Url)])
    else if c == CR then Go(p.(major := 0, minor := 9, st := ReqLineAlmostDone), [Flush(Url)])
    else if c == LF then Go(p.(major := 0, minor := 9, st := FieldStart), [Flush(Url)])
    else UrlByte(p, p.st, c, [])
  }

  function OnReqHttpStart(p: Parser, c: char): Outcome {
    if c == ' ' then Go(p, [])
    else if c == 'H' then Go(p.(st := ReqH), [])
    else if c == 'I' && p.verb.SOURCE? then Go(p.(st := ReqI), [])
    else Fail(InvalidConstant)
  }

  function OnMajor(p: Parser, c: char, next: State): Outcome {
    if IsNum(c) then Go(p.(major := Digit(c), st := next), []) else Fail(InvalidVersion)
  }

  function OnMinor(p: Parser, c: char, next: State): Outcome {
    if IsNum(c) then Go(p.(minor := Digit(c), st := next), []) else Fail(InvalidVersion)
  }

  function OnReqEnd(p: Parser, c: char): Outcome {
    if c == CR then Go(p.(st := ReqLineAlmostDone), [])
    else if c == LF then Go(p.(st := FieldStart), [])
    else Fail(InvalidVersion)
  }

  // ------------------------------------------------------------------ the status line

  function OnFirstStatusCode(p: Parser, c: char): Outcome {
    if IsNum(c) then Go(p.(status := Digit(c), st := ResStatusCode), [])
    else if c == ' ' then Go(p, [])
    else Fail(InvalidStatus)
  }

  function OnStatusCode(p: Parser, c: char): Outcome {
    if IsNum(c) then
      var code := p.status * 10 + Digit(c);
      if code > 999 then Fail(InvalidStatus) else Go(p.(status := code), [])
    else if c == ' ' then Go(p.(st := ResStatusStart), [])
    else if c == CR || c == LF then OnStatusStart(p, c)
    else Fail(InvalidStatus)
  }

  function OnStatusStart(p: Parser, c: char): Outcome {
    var q := p.(st := ResStatus, index := 0);
    if c == CR || c == LF then Then([Mark(Status)], OnStatus(q, c)) else Go(q, [Mark(Status)])
  }

  function OnStatus(p: Parser, c: char): Outcome {
    if c == CR then Go(p.(st := ResLineAlmostDone), [Flush(Status)])
    else if c == LF then Go(p.(st := FieldStart), [Flush(Status)])
    else Go(p, [])
  }

  // ------------------------------------------------------------------ header fields

  function OnFieldStart(p: Parser, c: char): Outcome {
    if c == CR then Go(p.(st := HeadersAlmostDone), [])
    else if c == LF then OnHeadersAlmostDone(p.(st := HeadersAlmostDone), c)
    else
      var t := Token(c);
      if t == '\0' then Fail(InvalidHeaderToken)
      else
        var hs := match t
          case 'c' => C
          case 'p' => MatchingProxyConnection
          case 't' => MatchingTransferEncoding
          case 'u' => MatchingUpgrade
          case _ => General;
        Go(p.(index := 0, st := Field, hs := hs), [Mark(FieldData)])
  }

  /** The word a matching state compares with, and the state once it has matched. */
  function Word(hs: HeaderState): string {
    match hs
    case MatchingConnection => "connection"
    case MatchingProxyConnection => "proxy-connection"
    case MatchingContentLength => "content-length"
    case MatchingTransferEncoding => "transfer-encoding"
    case MatchingUpgrade => "upgrade"
    case MatchingChunked => "chunked"
    case MatchingKeepAlive => "keep-alive"
    case MatchingClose => "close"
    case MatchingConnUpgrade => "upgrade"
    case _ => ""
  }

  function Found(hs: HeaderState): HeaderState {
    match hs
    case MatchingConnection => Connection
    case MatchingProxyConnection => Connection
    case MatchingContentLength => ContentLength
    case MatchingTransferEncoding => TransferEncoding
    case MatchingUpgrade => Upgrade
    case MatchingChunked => Chunked
    case MatchingKeepAlive => KeepAlive
    case MatchingClose => Close
    case MatchingConnUpgrade => ConnUpgrade
    case _ => hs
  }

  predicate MatchesName(hs: HeaderState) {
    hs.MatchingConnection? || hs.MatchingProxyConnection? || hs.MatchingContentLength? || hs.MatchingTransferEncoding? ||
    hs.MatchingUpgrade?
  }

  predicate MatchesToken(hs: HeaderState) {
    hs.MatchingChunked? || hs.MatchingKeepAlive? || hs.MatchingClose? || hs.MatchingConnUpgrade?
  }

  /** One more byte, already in lower case, against the word; a mismatch goes to `other`. */
  function MatchWord(p: Parser, t: char, other: HeaderState): Parser {
    var word, i := Word(p.hs), p.index + 1;
    if i >= |word| || t != word[i] then p.(index := i, hs := other)
    else if i == |word| - 1 then p.(index := i, hs := Found(p.hs), te := p.te || p.hs.MatchingTransferEncoding?)
    else p.(index := i)
  }

  function MatchField(p: Parser, c: char): Parser {
    var t := Token(c);
    if MatchesName(p.hs) then MatchWord(p, t, General)
    else match p.hs
      case C => p.(index := p.index + 1, hs := if t == 'o' then CO else General)
      case CO => p.(index := p.index + 1, hs := if t == 'n' then CON else General)
      case CON =>
        p.(index := p.index + 1, hs := if t == 'n' then MatchingConnection else if t == 't' then MatchingContentLength else General)
      case Connection => p.(hs := if c != ' ' then General else p.hs)
      case ContentLength => p.(hs := if c != ' ' then General else p.hs)
      case TransferEncoding => p.(hs := if c != ' ' then General else p.hs)
      case Upgrade => p.(hs := if c != ' ' then General else p.hs)
      case _ => p
  }

  function OnField(p: Parser, c: char): Outcome {
    if Token(c) != '\0' then Go(MatchField(p, c), [])
    else if c == ':' then Go(p.(st := DiscardWs), [Flush(FieldData)])
    else Fail(InvalidHeaderToken)
  }

  // ------------------------------------------------------------------ header values

  function OnDiscardWs(p: Parser, c: char): Outcome {
    if c == ' ' || c == TAB then Go(p, [])
    else if c == CR then Go(p.(st := DiscardWsAlmostDone), [])
    else if c == LF then Go(p.(st := DiscardLws), [])
    else OnValueStart(p, c)
  }

  function FirstOfConnection(c: char, other: HeaderState): HeaderState {
    match Lower(c)
    case 'k' => MatchingKeepAlive
    case 'c' => MatchingClose
    case 'u' => MatchingConnUpgrade
    case _ => other
  }

  function OnValueStart(p: Parser, c: char): Outcome {
    var q := p.(st := Value, index := 0);
    match p.hs
    case Upgrade => Go(q.(flags := q.flags.(upgrade := true), hs := General), [Mark(ValueData)])
    case TransferEncoding => Go(q.(hs := if Lower(c) == 'c' then MatchingChunked else TokenTE), [Mark(ValueData)])
    case TokenStartTE => Go(q, [Mark(ValueData)])
    case ContentLength =>
      if !IsNum(c) then Fail(InvalidContentLength)
      else if p.flags.contentLength then Fail(UnexpectedContentLength)
      else Go(q.(flags := q.flags.(contentLength := true), contentLength := Digit(c), hs := ContentLengthNum), [Mark(ValueData)])
    case ContentLengthWs => Go(q, [Mark(ValueData)])
    case Connection => Go(q.(hs := FirstOfConnection(c, TokenConn)), [Mark(ValueData)])
    case TokenStartConn => Go(q, [Mark(ValueData)])
    case _ => Go(q.(hs := General), [Mark(ValueData)])
  }

  function ConnectionFlags(f: Flags, hs: HeaderState): Flags {
    if hs.KeepAlive? then f.(keepAlive := true)
    else if hs.Close? then f.(close := true)
    else if hs.ConnUpgrade? then f.(connUpgrade := true)
    else f
  }

  /** A byte after a whole Connection token. */
  function AfterToken(p: Parser, c: char): Parser {
    if c == ',' then p.(flags := ConnectionFlags(p.flags, p.hs), hs := TokenStartConn, index := 0)
    else if c != ' ' then p.(hs := TokenConn)
    else p
  }

  function ContentLengthDigit(p: Parser, c: char): Outcome {
    if c == ' ' then Go(p.(hs := ContentLengthWs), [])
    else if !IsNum(c) || (ULLONG_MAX - 10) / 10 < p.contentLength then Fail(InvalidContentLength)
    else Go(p.(hs := ContentLengthNum, contentLength := p.contentLength * 10 + Digit(c)), [])
  }

  /** A mismatch inside a value reads on to the next comma. */
  function OtherToken(hs: HeaderState): HeaderState { if hs.MatchingChunked? then TokenTE else TokenConn }

  /** A value byte other than CR and LF. */
  function MatchValue(p: Parser, c: char): Outcome {
    if MatchesToken(p.hs) then Go(MatchWord(p, Lower(c), OtherToken(p.hs)), [])
    else match p.hs
      case General => Go(p, [])
      case Connection => Fail(InvalidInternalState)
      case TransferEncoding => Fail(InvalidInternalState)
      case ContentLength => if c == ' ' then Go(p, []) else ContentLengthDigit(p, c)
      case ContentLengthNum => ContentLengthDigit(p, c)
      case ContentLengthWs => if c == ' ' then Go(p, []) else Fail(InvalidContentLength)
      case TokenStartTE => Go(p.(hs := NextCoding(c)), [])
      case TokenTE => Go(if c == ',' then p.(hs := TokenStartTE, index := 0) else p, [])
      case Chunked => Go(if c != ' ' then p.(hs := TokenTE) else p, [])
      case TokenStartConn => Go(p.(hs := NextConnection(c)), [])
      case TokenConn => Go(if c == ',' then p.(hs := TokenStartConn, index := 0) else p, [])
      case KeepAlive => Go(AfterToken(p, c), [])
      case Close => Go(AfterToken(p, c), [])
      case ConnUpgrade => Go(AfterToken(p, c), [])
      case _ => Go(p.(hs := General), [])
  }

  /** The first byte of the next token of a list, blanks skipped. */
  function NextCoding(c: char): HeaderState {
    var t := Lower(c);
    if t == 'c' then MatchingChunked
    else if t != ' ' && Token(t) != '\0' then TokenTE
    else if t == ' ' || t == TAB then TokenStartTE
    else General
  }

  function NextConnection(c: char): HeaderState {
    var t := Lower(c);
    FirstOfConnection(c, if t != ' ' && Token(t) != '\0' then TokenConn else if t == ' ' || t == TAB then TokenStartConn else General)
  }

  function OnValue(p: Parser, c: char): Outcome {
    if c == CR then Go(p.(st := HeaderAlmostDone), [Flush(ValueData)])
    else if c == LF then Go(p.(st := ValueLws), [Flush(ValueData)])
    else if !p.lenient && !IsHeaderChar(c) then Fail(InvalidHeaderToken)
    else MatchValue(p, c)
  }

  function FinishHeader(p: Parser): Parser {
    p.(flags := if p.hs.Chunked? then p.flags.(chunked := true) else ConnectionFlags(p.flags, p.hs), st := FieldStart)
  }

  function OnValueLws(p: Parser, c: char): Outcome {
    if c == ' ' || c == TAB then OnValueStart(p.(hs := if p.hs.ContentLengthNum? then ContentLengthWs else p.hs), c)
    else OnFieldStart(FinishHeader(p), c)
  }

  function OnDiscardLws(p: Parser, c: char): Outcome {
    if c == ' ' || c == TAB then Go(p.(st := DiscardWs), [])
    else if p.hs.ContentLength? then Fail(InvalidContentLength)
    else Then([Mark(ValueData), Flush(ValueData)], OnFieldStart(FinishHeader(p), c))
  }

  // ------------------------------------------------------------------ the end of the headers

  predicate NeedsEof(p: Parser) {
    if p.kind.Request? then false
    else if p.status / 100 == 1 || p.status == 204 || p.status == 304 then false
    else if p.te && !p.flags.chunked then true
    else !(p.flags.chunked || p.contentLength != ULLONG_MAX)
  }

  predicate ShouldKeepAlive(p: Parser) {
    (if p.major > 0 && p.minor > 0 then !p.flags.close else p.flags.keepAlive) && !NeedsEof(p)
  }

  function NewMessage(p: Parser): Parser {
    p.(st := if !ShouldKeepAlive(p) then Dead else if p.kind.Request? then StartReq else StartRes)
  }

  function OnHeadersAlmostDone(p: Parser, c: char): Outcome {
    if c != LF then Fail(Strict)
    else if p.flags.trailing then OnMessageDone(p.(st := MessageDone))
    else if p.te && p.flags.contentLength && (!p.lenient || p.flags.chunked) then Fail(UnexpectedContentLength)
    else
      var up := if p.flags.upgrade && p.flags.connUpgrade then p.kind.Request? || p.status == 101 else p.verb.CONNECT?;
      Then([HeadersComplete], OnHeadersDone(p.(upgrade := up)))
  }

  function OnHeadersDone(p: Parser): Outcome {
    var q := p.(nread := 0);
    var hasBody := p.flags.chunked || (p.contentLength > 0 && p.contentLength != ULLONG_MAX);
    if p.upgrade && (p.verb.CONNECT? || !hasBody) then Leave(NewMessage(q), [MessageComplete])
    else if p.flags.chunked then Go(q.(st := ChunkSizeStart), [])
    else if p.te then
      if p.kind.Request? && !p.lenient then Fail(InvalidTransferEncoding) else Go(q.(st := BodyIdentityEof), [])
    else if p.contentLength == 0 then Go(NewMessage(q), [MessageComplete])
    else if p.contentLength != ULLONG_MAX then Go(q.(st := BodyIdentity), [])
    else if !NeedsEof(p) then Go(NewMessage(q), [MessageComplete])
    else Go(q.(st := BodyIdentityEof), [])
  }

  function OnMessageDone(p: Parser): Outcome {
    if p.upgrade then Leave(NewMessage(p), [MessageComplete]) else Go(NewMessage(p), [MessageComplete])
  }

  // ------------------------------------------------------------------ the body

  function OnBodyIdentity(p: Parser): Outcome
    requires p.contentLength > 0
  {
    var q := p.(contentLength := p.contentLength - 1);
    if q.contentLength == 0 then Then([Mark(Body), FlushThis(Body)], OnMessageDone(q.(st := MessageDone)))
    else Go(q, [Mark(Body)])
  }

  function OnChunkSizeStart(p: Parser, c: char): Outcome {
    if Unhex(c) == -1 then Fail(InvalidChunkSize) else Go(p.(contentLength := Unhex(c), st := ChunkSize), [])
  }

  function OnChunkSize(p: Parser, c: char): Outcome {
    if c == CR then Go(p.(st := ChunkSizeAlmostDone), [])
    else if Unhex(c) == -1 then
      if c == ';' || c == ' ' then Go(p.(st := ChunkParameters), []) else Fail(InvalidChunkSize)
    else if (ULLONG_MAX - 16) / 16 < p.contentLength then Fail(InvalidContentLength)
    else Go(p.(contentLength := p.contentLength * 16 + Unhex(c)), [])
  }

  function OnChunkSizeAlmostDone(p: Parser, c: char): Outcome {
    if c != LF then Fail(Strict)
    else if p.contentLength == 0 then Go(p.(nread := 0, flags := p.flags.(trailing := true), st := FieldStart), [])
    else Go(p.(nread := 0, st := ChunkData), [])
  }

  function OnChunkData(p: Parser): Outcome
    requires p.contentLength > 0
  {
    var q := p.(contentLength := p.contentLength - 1);
    Go(if q.contentLength == 0 then q.(st := ChunkDataAlmostDone) else q, [Mark(Body)])
  }

  // ------------------------------------------------------------------ one byte

  predicate InStartLine(st: State) {
    st.StartReq? || st.ReqMethod? || st.ReqSpacesBeforeUrl? || InUrl(st) || st.ReqHttpStart? || st.ReqMajor? ||
    st.ReqMinor? || st.ReqEnd? || st.StartReqOrRes? || st.ResOrRespH? || st.StartRes? || st.ResMajor? || st.ResMinor? ||
    st.ResFirstStatusCode? || st.ResStatusCode? || st.ResStatusStart? || st.ResStatus?
  }

  /** States that take one fixed byte: which, the state after it, and the error for any other. */
  function Expected(st: State): (r: Option<(char, State, Errno)>)
  {
    match st
    case ReqH => Some(('T', ReqHT, Strict))
    case ReqHT => Some(('T', ReqHTT, Strict))
    case ReqHTT => Some(('P', ReqHTTP, Strict))
    case ReqI => Some(('C', ReqIC, Strict))
    case ReqIC => Some(('E', ReqHTTP, Strict))
    case ReqHTTP => Some(('/', ReqMajor, Strict))
    case ReqDot => Some(('.', ReqMinor, InvalidVersion))
    case ReqLineAlmostDone => Some((LF, FieldStart, LfExpected))
    case ResH => Some(('T', ResHT, Strict))
    case ResHT => Some(('T', ResHTT, Strict))
    case ResHTT => Some(('P', ResHTTP, Strict))
    case ResHTTP => Some(('/', ResMajor, Strict))
    case ResDot => Some(('.', ResMinor, InvalidVersion))
    case ResEnd => Some((' ', ResFirstStatusCode, InvalidVersion))
    case ResLineAlmostDone => Some((LF, FieldStart, Strict))
    case DiscardWsAlmostDone => Some((LF, DiscardLws, Strict))
    case HeaderAlmostDone => Some((LF, ValueLws, LfExpected))
    case _ => None
  }

  function StartLine(p: Parser, c: char): Outcome {
    match p.st
    case StartReq => OnStartReq(p, c)
    case ReqMethod => OnReqMethod(p, c)
    case ReqSpacesBeforeUrl => OnSpacesBeforeUrl(p, c)
    case ReqHttpStart => OnReqHttpStart(p, c)
    case ReqMajor => OnMajor(p, c, ReqDot)
    case ReqMinor => OnMinor(p, c, ReqEnd)
    case ReqEnd => OnReqEnd(p, c)
    case StartReqOrRes => OnStartReqOrRes(p, c)
    case ResOrRespH => OnResOrRespH(p, c)
    case StartRes => OnStartRes(p, c)
    case ResMajor => OnMajor(p, c, ResDot)
    case ResMinor => OnMinor(p, c, ResEnd)
    case ResFirstStatusCode => OnFirstStatusCode(p, c)
    case ResStatusCode => OnStatusCode(p, c)
    case ResStatusStart => OnStatusStart(p, c)
    case ResStatus => OnStatus(p, c)
    case _ => OnUrl(p, c)
  }

  /** The bodies of the switch. A length that has run out is an assert's business: see HttpConsumer.AssertsHold. */
  function Switch(p: Parser, c: char): Outcome {
    var e := Expected(p.st);
    if e.Some? then (if c == e.value.0 then Go(p.(st := e.value.1), []) else Fail(e.value.2))
    else if InStartLine(p.st) then StartLine(p, c)
    else match p.st
      case Dead => if c == CR || c == LF then Go(p, []) else Fail(ClosedConnection)
      case FieldStart => OnFieldStart(p, c)
      case Field => OnField(p, c)
      case DiscardWs => OnDiscardWs(p, c)
      case DiscardLws => OnDiscardLws(p, c)
      case ValueStart => OnValueStart(p, c)
      case Value => OnValue(p, c)
      case ValueLws => OnValueLws(p, c)
      case ChunkSizeStart => OnChunkSizeStart(p, c)
      case ChunkSize => OnChunkSize(p, c)
      case ChunkParameters => Go(if c == CR then p.(st := ChunkSizeAlmostDone) else p, [])
      case ChunkSizeAlmostDone => OnChunkSizeAlmostDone(p, c)
      case HeadersAlmostDone => OnHeadersAlmostDone(p, c)
      case HeadersDone => if c != LF then Fail(Strict) else OnHeadersDone(p)
      case ChunkData => if p.contentLength == 0 then Fail(InvalidInternalState) else OnChunkData(p)
      case ChunkDataAlmostDone => if c == CR then Go(p.(st := ChunkDataDone), [Flush(Body)]) else Fail(Strict)
      case ChunkDataDone => if c == LF then Go(p.(nread := 0, st := ChunkSizeStart), []) else Fail(Strict)
      case BodyIdentity => if p.contentLength == 0 then Fail(InvalidInternalState) else OnBodyIdentity(p)
      case BodyIdentityEof => Go(p, [Mark(Body)])
      case _ => OnMessageDone(p)
  }

  predicate ParsingHeader(st: State) {
    !(st.ChunkData? || st.ChunkDataAlmostDone? || st.ChunkDataDone? || st.BodyIdentity? || st.BodyIdentityEof? || st.MessageDone?)
  }

  /** COUNT_HEADER_SIZE(1), in header states only. */
  function Counted(p: Parser): Parser { if ParsingHeader(p.st) then p.(nread := p.nread + 1) else p }

  /** One byte: counted, then switched on. */
  function Advance(p: Parser, c: char): Outcome {
    if ParsingHeader(p.st) && Counted(p).nread > MAX_HEADER_SIZE then Fail(HeaderOverflow) else Switch(Counted(p), c)
  }
}
