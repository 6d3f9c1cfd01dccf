/** Where a body ends: Content-Length bytes, or the chunks of section 4.1 of RFC 7230. */
module HttpFraming {
  import opened HttpAutomaton
  import opened HttpConsumer
  import opened HttpBodies

  /** A message's end: the consumer is told once, and the parser is ready for the next message or dead. */
  function Completed(p: Parser, c: Ctx, body: string): Result {
    Done(Machine(NewMessage(p), OnMessageComplete(c.(body := c.body + body))))
  }

  lemma IdentityLast(m: Machine, b: char)
    requires m.parser.st.BodyIdentity? && m.parser.contentLength == 1 && !m.parser.upgrade
    ensures One(m, b) == Completed(m.parser.(contentLength := 0, st := MessageDone), m.ctx, [b])
  {
    hide Advance;
    IdentityEnds(m.parser, b);
    var acts: seq<Act> := [Mark(Body), FlushThis(Body)] + [MessageComplete];
    assert acts == [Mark(Body), FlushThis(Body), MessageComplete];
    assert acts[1..] == [FlushThis(Body), MessageComplete] && acts[1..][1..] == [MessageComplete] && acts[1..][1..][1..] == [];
    var c := Deliver(m.ctx, Body, [b]);
    assert Perform(c, None, [MessageComplete], b) == OnMessageComplete(c);
    assert Perform(m.ctx, Some(Body), acts[1..], b) == Perform(c, None, acts[1..][1..], b);
  }

  /** An identity body is its Content-Length bytes, no fewer and no more, and completes on the last of them. */
  lemma IdentityBody(m: Machine, s: string)
    requires m.parser.st.BodyIdentity? && |s| == m.parser.contentLength > 0 && !m.parser.upgrade
    ensures Run(m, s) == Completed(m.parser.(contentLength := 0, st := MessageDone), m.ctx, s)
    ensures forall k | 0 <= k < |s| :: Run(m, s[..k]).Done? && Run(m, s[..k]).m.ctx == m.ctx.(body := m.ctx.body + s[..k])
  {
    hide One, NewMessage;
    var init := s[..|s| - 1];
    IdentityBulk(m, init);
    IdentityLast(Run(m, init).m, s[|s| - 1]);
    assert (m.ctx.body + init) + [s[|s| - 1]] == m.ctx.body + s;
    forall k | 0 <= k < |s| ensures Run(m, s[..k]).Done? && Run(m, s[..k]).m.ctx == m.ctx.(body := m.ctx.body + s[..k]) {
      IdentityBulk(m, s[..k]);
    }
  }

  // ------------------------------------------------------------------ chunk sizes

  function HexDigit(d: nat): char
    requires d < 16
  {
    "0123456789abcdef"[d]
  }

  function Hex(n: nat): (r: string)
    ensures r != ""
  {
    (if n < 16 then "" else Hex(n / 16)) + [HexDigit(n % 16)]
  }

  function Power(b: nat, k: nat): nat { if k == 0 then 1 else b * Power(b, k - 1) }

  lemma {:induction false} HexSize(n: nat, k: nat)
    requires 0 < k && n < Power(16, k)
    ensures |Hex(n)| <= k
  {
    if n >= 16 { HexSize(n / 16, k - 1); }
  }

  lemma SixteenDigits()
    ensures Power(16, 16) == 0x1_0000_0000_0000_0000
  {
    assert Power(16, 4) == 0x1_0000;
    assert Power(16, 8) == 0x1_0000_0000;
    assert Power(16, 12) == 0x1_0000_0000_0000;
  }

  lemma HexDigitValue(d: nat)
    requires d < 16
    ensures Unhex(HexDigit(d)) == d && HexDigit(d) != CR
  {
  }

  predicate HexByte(c: char) { '0' <= c <= '9' || 'a' <= c <= 'f' || 'A' <= c <= 'F' }

  function HexValue(c: char): nat
    requires HexByte(c)
  {
    if c <= '9' then c as int - '0' as int else if c <= 'F' then c as int - 'A' as int + 10 else c as int - 'a' as int + 10
  }

  /** Exactly which bytes can begin a chunk size: the hexadecimal digits in either case, with their values, and, since the table
      behind them is half filled, every byte above 127, which passes for a nought. */
  lemma SizeBytes(m: Machine, c: char)
    requires m.parser.st.ChunkSizeStart? && m.parser.nread < MAX_HEADER_SIZE
    ensures One(m, c).Done? <==> HexByte(c) || c as int >= 128
    ensures HexByte(c) ==> One(m, c).m.parser.contentLength == HexValue(c)
    ensures c as int >= 128 ==> One(m, c) == One(m, '0')
  {
    hide Counted;
    assert Counted(m.parser).st.ChunkSizeStart? && Counted(m.parser).nread <= MAX_HEADER_SIZE by { CountedSizes(m.parser); }
    SizeSwitch(Counted(m.parser), c);
    SizeSwitch(Counted(m.parser), '0');
  }

  lemma CountedSizes(p: Parser)
    requires p.st.ChunkSizeStart? && p.nread < MAX_HEADER_SIZE
    ensures Counted(p).st.ChunkSizeStart? && Counted(p).nread <= MAX_HEADER_SIZE
  {
  }

  lemma SizeSwitch(p: Parser, c: char)
    requires p.st.ChunkSizeStart?
    ensures Switch(p, c) == if HexByte(c) then Go(p.(contentLength := HexValue(c), st := ChunkSize), [])
      else if c as int >= 128 then Go(p.(contentLength := 0, st := ChunkSize), [])
      else Fail(InvalidChunkSize)
  {
  }

  /** Above this a chunk size is refused as an overflow. */
  const MAX_CHUNK := ULLONG_MAX - 16

  lemma SizeFirst(m: Machine, d: nat)
    requires m.parser.st.ChunkSizeStart? && d < 16 && m.parser.nread < MAX_HEADER_SIZE
    ensures One(m, HexDigit(d)) == Done(Machine(m.parser.(st := ChunkSize, contentLength := d, nread := m.parser.nread + 1), m.ctx))
  {
    HexDigitValue(d);
  }

  lemma SizeNext(m: Machine, d: nat)
    requires m.parser.st.ChunkSize? && d < 16
    ensures One(m, HexDigit(d)) ==
      if m.parser.nread >= MAX_HEADER_SIZE || m.parser.contentLength > MAX_CHUNK / 16 then Failed
      else Done(Machine(m.parser.(contentLength := m.parser.contentLength * 16 + d, nread := m.parser.nread + 1), m.ctx))
  {
    HexDigitValue(d);
  }

  /** A chunk size is read as the number it denotes, up to 2^64 - 17; from there on it is refused. */
  lemma ChunkSizeLeft(n: nat)
    requires n >= 16
    ensures n == n / 16 * 16 + n % 16
    ensures n <= MAX_CHUNK <==> n / 16 <= MAX_CHUNK / 16
  {
  }

  /** What has failed, or left, does not read on. */
  lemma RunFails(m: Machine, s: string, b: char)
    requires !Run(m, s).Done?
    ensures Run(m, s + [b]) == Run(m, s)
  {
    hide One;
    assert (s + [b])[..|s|] == s;
  }

  lemma {:induction false} ChunkSizeRead(m: Machine, n: nat)
    requires m.parser.st.ChunkSizeStart? && m.parser.nread == 0
    ensures Run(m, Hex(n)).Done? <==> n <= MAX_CHUNK
    ensures n <= MAX_CHUNK ==>
      Run(m, Hex(n)) == Done(Machine(m.parser.(st := ChunkSize, contentLength := n, nread := |Hex(n)|), m.ctx))
  {
    hide One, Run, Power, HexDigit;
    if n < 16 {
      assert Hex(n) == "" + [HexDigit(n)];
      Empty(m);
      RunOne(m, "", HexDigit(n));
      SizeFirst(m, n);
    } else {
      var init := Hex(n / 16);
      assert Hex(n) == init + [HexDigit(n % 16)];
      ChunkSizeRead(m, n / 16);
      ChunkSizeLeft(n);
      if Run(m, init).Done? { RunOne(m, init, HexDigit(n % 16)); } else { RunFails(m, init, HexDigit(n % 16)); }
      if n / 16 <= MAX_CHUNK {
        SixteenDigits();
        HexSize(n / 16, 16);
        SizeNext(Run(m, init).m, n % 16);
      }
    }
  }

  // ------------------------------------------------------------------ chunked bodies

  const CRLF := "\r\n"

  function ChunkText(chunk: string): string { Hex(|chunk|) + CRLF + chunk + CRLF }

  function ChunkedText(chunks: seq<string>): string {
    if chunks == [] then "0" + CRLF + CRLF else ChunkText(chunks[0]) + ChunkedText(chunks[1..])
  }

  function Joined(chunks: seq<string>): string {
    if chunks == [] then "" else chunks[0] + Joined(chunks[1..])
  }

  lemma SizeCr(m: Machine)
    requires m.parser.st.ChunkSize? && m.parser.nread < MAX_HEADER_SIZE
    ensures One(m, CR) == Done(Machine(m.parser.(nread := m.parser.nread + 1, st := ChunkSizeAlmostDone), m.ctx))
  {
  }

  lemma SizeLf(m: Machine)
    requires m.parser.st.ChunkSizeAlmostDone? && m.parser.nread < MAX_HEADER_SIZE
    ensures One(m, LF) == Done(Machine(
      if m.parser.contentLength == 0 then m.parser.(nread := 0, flags := m.parser.flags.(trailing := true), st := FieldStart)
      else m.parser.(nread := 0, st := ChunkData), m.ctx))
  {
  }

  lemma SizeLine(m: Machine)
    requires m.parser.st.ChunkSize? && m.parser.nread + 2 <= MAX_HEADER_SIZE
    ensures Run(m, CRLF) == Done(Machine(
      if m.parser.contentLength == 0 then m.parser.(nread := 0, flags := m.parser.flags.(trailing := true), st := FieldStart)
      else m.parser.(nread := 0, st := ChunkData), m.ctx))
  {
    hide One;
    SizeCr(m);
    SizeLf(One(m, CR).m);
    Pair(m, CR, LF);
  }

  lemma DataCr(m: Machine)
    requires m.parser.st.ChunkDataAlmostDone?
    ensures One(m, CR) == Done(Machine(m.parser.(st := ChunkDataDone), m.ctx))
  {
    assert [Flush(Body)][1..] == [];
  }

  lemma DataLf(m: Machine)
    requires m.parser.st.ChunkDataDone?
    ensures One(m, LF) == Done(Machine(m.parser.(nread := 0, st := ChunkSizeStart), m.ctx))
  {
  }

  lemma DataLine(m: Machine)
    requires m.parser.st.ChunkDataAlmostDone?
    ensures Run(m, CRLF) == Done(Machine(m.parser.(nread := 0, st := ChunkSizeStart), m.ctx))
  {
    hide One;
    DataCr(m);
    DataLf(One(m, CR).m);
    Pair(m, CR, LF);
  }

  lemma LastCr(m: Machine)
    requires m.parser.st.FieldStart? && m.parser.nread < MAX_HEADER_SIZE
    ensures One(m, CR) == Done(Machine(m.parser.(nread := m.parser.nread + 1, st := HeadersAlmostDone), m.ctx))
  {
  }

  lemma LastSwitch(p: Parser)
    requires p.st.HeadersAlmostDone? && p.flags.trailing && !p.upgrade
    ensures Switch(p, LF) == Go(NewMessage(p.(st := MessageDone)), [MessageComplete])
  {
    hide NewMessage, OnHeadersDone;
  }

  lemma LastLf(m: Machine)
    requires m.parser.st.HeadersAlmostDone? && m.parser.flags.trailing && m.parser.nread < MAX_HEADER_SIZE && !m.parser.upgrade
    ensures One(m, LF) == Completed(m.parser.(nread := m.parser.nread + 1, st := MessageDone), m.ctx, "")
  {
    hide NewMessage, Switch;
    LastSwitch(m.parser.(nread := m.parser.nread + 1));
    assert [MessageComplete][1..] == [];
    assert m.ctx.body + "" == m.ctx.body;
    assert Perform(m.ctx, None, [MessageComplete], LF) == OnMessageComplete(m.ctx);
  }

  lemma LastLine(m: Machine)
    requires m.parser.st.FieldStart? && m.parser.flags.trailing && m.parser.nread == 0 && !m.parser.upgrade
    ensures Run(m, CRLF) == Completed(m.parser.(nread := 2, st := MessageDone), m.ctx, "")
  {
    hide One, Run, NewMessage;
    LastCr(m);
    Pair(m, CR, LF);
    var p := m.parser.(nread := 1, st := HeadersAlmostDone);
    LastLf(Machine(p, m.ctx));
    assert p.(nread := 2, st := MessageDone) == m.parser.(nread := 2, st := MessageDone);
  }

  lemma Pair(m: Machine, a: char, b: char)
    requires One(m, a).Done?
    ensures Run(m, [a, b]) == match One(One(m, a).m, b) case Left(x, _) => Left(x, 2) case other => other
  {
    hide One, Run;
    Empty(m);
    RunOne(m, "", a);
    assert "" + [a] == [a] && [a] + [b] == [a, b];
    RunOne(m, [a], b);
  }

  /** One chunk hands over its bytes and leaves the parser where the next one starts. */
  lemma ChunkRun(m: Machine, chunk: string)
    requires m.parser.st.ChunkSizeStart? && m.parser.nread == 0 && 0 < |chunk| <= MAX_CHUNK
    ensures Run(m, ChunkText(chunk)) ==
      Done(Machine(m.parser.(contentLength := 0), m.ctx.(body := m.ctx.body + chunk)))
  {
    hide One;
    var size := Hex(|chunk|);
    ChunkSizeRead(m, |chunk|);
    SixteenDigits();
    HexSize(|chunk|, 16);
    var a := Run(m, size).m;
    SizeLine(a);
    var b := Run(a, CRLF).m;
    ChunkBulk(b, chunk);
    var c := Run(b, chunk).m;
    DataLine(c);
    RunJoin(m, size, CRLF);
    RunJoin(m, size + CRLF, chunk);
    RunJoin(m, size + CRLF + chunk, CRLF);
  }

  lemma LastChunk(m: Machine)
    requires m.parser.st.ChunkSizeStart? && m.parser.nread == 0 && !m.parser.upgrade
    ensures Run(m, "0" + CRLF + CRLF) ==
      Completed(m.parser.(nread := 2, contentLength := 0, flags := m.parser.flags.(trailing := true), st := MessageDone), m.ctx, "")
  {
    hide One;
    assert Hex(0) == "0";
    ChunkSizeRead(m, 0);
    var a := Run(m, "0").m;
    SizeLine(a);
    RunJoin(m, "0", CRLF);
    LastLine(Run(a, CRLF).m);
    RunJoin(m, "0" + CRLF, CRLF);
  }

  /** A chunked body hands over exactly its chunks, in order, and completes once, after the last of them. */
  lemma {:induction false} ChunkedBody(m: Machine, chunks: seq<string>)
    requires m.parser.st.ChunkSizeStart? && m.parser.nread == 0 && !m.parser.upgrade
    requires forall k | 0 <= k < |chunks| :: 0 < |chunks[k]| <= MAX_CHUNK
    ensures Run(m, ChunkedText(chunks)) ==
      Completed(m.parser.(nread := 2, contentLength := 0, flags := m.parser.flags.(trailing := true), st := MessageDone), m.ctx,
                Joined(chunks))
    decreases |chunks|
  {
    hide One, NewMessage, Run;
    if chunks == [] {
      LastChunk(m);
      assert m.ctx.body + "" == m.ctx.body + Joined(chunks);
    } else {
      ChunkRun(m, chunks[0]);
      var a := Machine(m.parser.(contentLength := 0), m.ctx.(body := m.ctx.body + chunks[0]));
      ChunkedBody(a, chunks[1..]);
      RunJoin(m, ChunkText(chunks[0]), ChunkedText(chunks[1..]));
      assert (m.ctx.body + chunks[0]) + Joined(chunks[1..]) == m.ctx.body + Joined(chunks);
    }
  }
}
