/** YS_HttpParserCtx behind the parser's callbacks, byte by byte; a run is what feeding one byte at a time gives. */
module HttpConsumer {
  import opened HttpAutomaton
  import opened HttpHeaders
  import opened HttpRuns

  /** `completions` counts on_message_complete calls; the source only clears `_fRecv`. */
  datatype Ctx = Ctx(
    url: string, status: string, field: string, value: string, lastIsVal: bool, headers: seq<Header>, body: string,
    recv: bool, completions: nat)

  const NEW_CTX := Ctx("", "", "", "", true, [], "", true, 0)

  /** on_header_field: the pair before it is complete once a new name starts. */
  function OnFieldData(c: Ctx, s: string): Ctx {
    var flushed := if c.lastIsVal && c.field != "" then c.(headers := Insert(c.headers, c.field, c.value), field := "", value := "") else c;
    flushed.(field := flushed.field + s, lastIsVal := false)
  }

  function Deliver(c: Ctx, d: Data, s: string): Ctx {
    match d
    case Url => c.(url := c.url + s)
    case Status => c.(status := c.status + s)
    case FieldData => OnFieldData(c, s)
    case ValueData => c.(value := c.value + s, lastIsVal := true)
    case Body => c.(body := c.body + s)
  }

  function OnHeadersComplete(c: Ctx): Ctx { c.(headers := Insert(c.headers, c.field, c.value)) }

  function OnMessageComplete(c: Ctx): Ctx { c.(recv := false, completions := c.completions + 1) }

  /** init on a context already used: clear empties everything but the last header name. */
  function Reinit(c: Ctx): Ctx {
    c.(url := "", status := "", value := "", body := "", headers := [], recv := true, lastIsVal := true)
  }

  /** A context used again starts its headers from nothing exactly when it held no header name before; otherwise the old
      name comes back with an empty value. */
  lemma ReuseIsFresh(c: Ctx, name: string)
    requires name != ""
    ensures var a := Deliver(Reinit(c), FieldData, name);
      a.headers == (if c.field == "" then [] else [(c.field, "")]) && a.field == name
      && a.url == "" && a.status == "" && a.value == "" && a.body == "" && a.recv
  {
    assert "" + name == name;
    assert Insert([], c.field, "") == [(c.field, "")];
  }

  /** A data callback may be split anywhere, even off an empty piece. */
  lemma DeliverJoin(c: Ctx, d: Data, s: string, t: string)
    ensures Deliver(Deliver(c, d, s), d, t) == Deliver(c, d, s + t)
  {
    assert (c.url + s) + t == c.url + (s + t);
    assert (c.status + s) + t == c.status + (s + t);
    assert (c.value + s) + t == c.value + (s + t);
    assert (c.body + s) + t == c.body + (s + t);
    assert (c.field + s) + t == c.field + (s + t);
    assert ("" + s) + t == "" + (s + t);
  }

  /** The mark http_parser_execute sets before its first byte. */
  function MarkAt(st: State): Option<Data> {
    if st.Field? then Some(FieldData)
    else if st.Value? then Some(ValueData)
    else if InUrl(st) then Some(Url)
    else if st.ResStatus? then Some(Status)
    else None
  }

  /** The acts of one byte, when that byte is all the data there is. */
  function Perform(c: Ctx, mark: Option<Data>, acts: seq<Act>, b: char): Ctx
    decreases |acts|
  {
    if acts == [] then (if mark.Some? then Deliver(c, mark.value, [b]) else c)
    else match acts[0]
      case Mark(d) => Perform(c, if mark.None? then Some(d) else mark, acts[1..], b)
      case Flush(d) => if mark == Some(d) then Perform(Deliver(c, d, ""), None, acts[1..], b) else Perform(c, mark, acts[1..], b)
      case FlushThis(d) => if mark == Some(d) then Perform(Deliver(c, d, [b]), None, acts[1..], b) else Perform(c, mark, acts[1..], b)
      case HeadersComplete => Perform(OnHeadersComplete(c), mark, acts[1..], b)
      case MessageComplete => Perform(OnMessageComplete(c), mark, acts[1..], b)
  }

  datatype Machine = Machine(parser: Parser, ctx: Ctx)

  /** `Left`: upgraded after `n` bytes; the rest is another protocol's. */
  datatype Result = Done(m: Machine) | Left(m: Machine, n: nat) | Failed

  function One(m: Machine, b: char): Result {
    match Advance(m.parser, b)
    case Go(p, acts) => Done(Machine(p, Perform(m.ctx, MarkAt(m.parser.st), acts, b)))
    case Leave(p, acts) => Left(Machine(p, Perform(m.ctx, MarkAt(m.parser.st), acts, b)), 1)
    case Fail(_) => Failed
  }

  function Run(m: Machine, s: string): Result {
    if s == "" then Done(m)
    else match Run(m, s[..|s| - 1])
      case Done(a) =>
        (match One(a, s[|s| - 1])
         case Left(b, _) => Left(b, |s|)
         case other => other)
      case other => other
  }

  /** Reading on after a part: what makes the way the data is cut irrelevant to a run. */
  lemma {:induction false} RunJoin(m: Machine, s: string, t: string)
    ensures Run(m, s + t) ==
      match Run(m, s)
      case Done(a) => (match Run(a, t) case Left(b, n) => Left(b, |s| + n) case other => other)
      case other => other
  {
    hide One;
    if t == "" {
      assert s + t == s;
    } else {
      var init := t[..|t| - 1];
      RunJoin(m, s, init);
      assert (s + t)[..|s + t| - 1] == s + init;
    }
  }

  lemma Empty(m: Machine)
    ensures Run(m, "") == Done(m)
  {
    hide One;
  }

  lemma RunOne(m: Machine, s: string, b: char)
    ensures Run(m, s).Done? ==> Run(m, s + [b]) == (match One(Run(m, s).m, b) case Left(x, _) => Left(x, |s| + 1) case other => other)
  {
    hide One;
    assert (s + [b])[..|s|] == s;
  }

  lemma {:induction false} RunReachable(m: Machine, s: string)
    requires Reachable(m.parser)
    ensures Run(m, s).Done? ==> Reachable(Run(m, s).m.parser)
    ensures Run(m, s).Left? ==> Reachable(Run(m, s).m.parser) && 0 < Run(m, s).n <= |s|
  {
    if s != "" {
      RunReachable(m, s[..|s| - 1]);
      var r := Run(m, s[..|s| - 1]);
      if r.Done? { AdvanceSound(r.m.parser, s[|s| - 1]); }
    }
  }

  /** The asserts the next byte evaluates. */
  predicate AssertsHold(p: Parser) {
    match p.st
    case Field => NameState(p.hs)
    case Value => !p.hs.Connection? && !p.hs.TransferEncoding?
    case ChunkSizeStart => Counted(p).nread == 1 && p.flags.chunked
    case ChunkSize => p.flags.chunked
    case ChunkParameters => p.flags.chunked
    case ChunkSizeAlmostDone => p.flags.chunked
    case ChunkData => p.flags.chunked && p.contentLength != 0 && p.contentLength != ULLONG_MAX
    case ChunkDataAlmostDone => p.flags.chunked && p.contentLength == 0
    case ChunkDataDone => p.flags.chunked
    case BodyIdentity => p.contentLength != 0 && p.contentLength != ULLONG_MAX
    case _ => true
  }

  /** In every run every assert holds, and the bit-field and 64-bit values never wrap. */
  lemma EveryAssertHolds(kind: Kind, lenient: bool, ctx: Ctx, s: string)
    requires Run(Machine(Fresh(kind).(lenient := lenient), ctx), s).Done?
    ensures var p := Run(Machine(Fresh(kind).(lenient := lenient), ctx), s).m.parser;
      AssertsHold(p) && p.nread <= MAX_HEADER_SIZE && p.index < 32 && p.status <= 999 && p.contentLength <= ULLONG_MAX
  {
    RunReachable(Machine(Fresh(kind).(lenient := lenient), ctx), s);
  }
}
