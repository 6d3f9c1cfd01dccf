/** http_parser_execute itself, with its marks and bulk loops, and the consumer that feeds it. */
module HttpExecute {
  import opened HttpAutomaton
  import opened HttpHeaders
  import opened HttpRuns
  import opened HttpConsumer
  import opened HttpMarks
  import opened HttpBodies
  import opened HttpBytes

  /** Above this, the 32-bit count of one long header could wrap past the limit. */
  const MAX_PIECE := 0x1_0000_0000 - MAX_HEADER_SIZE

  /** COUNT_HEADER_SIZE's addition. */
  function Add32(nread: nat, n: nat): nat { (nread + n) % 0x1_0000_0000 }

  /** Counting n bytes at once and checking the limit afterwards finds what counting them one by one finds, exactly when
      the 32-bit sum does not wrap; a longer name or value in one piece is then taken for a short one. */
  lemma CountIsSound(nread: nat, n: nat)
    requires nread <= MAX_HEADER_SIZE && n < 0x1_0000_0000
    ensures (Add32(nread, n) > MAX_HEADER_SIZE <==> nread + n > MAX_HEADER_SIZE) <==> nread + n < 0x1_0000_0000
    ensures nread < MAX_HEADER_SIZE && n <= MAX_PIECE ==> nread + n < 0x1_0000_0000
  {
  }

  function At(m: Machine, data: string, i: nat): Result
    requires i <= |data|
  {
    Run(m, data[..i])
  }

  /** The byte-wise run, one byte on. */
  lemma AtNext(m: Machine, data: string, i: nat)
    requires i < |data|
    ensures At(m, data, i + 1) ==
      match At(m, data, i)
      case Done(a) => (match One(a, data[i]) case Left(b, _) => Left(b, i + 1) case other => other)
      case other => other
  {
    assert data[..i + 1][..i] == data[..i] && data[..i + 1] != "";
  }

  /** A run that has ended stays ended. */
  lemma {:induction false} AtStays(m: Machine, data: string, i: nat, j: nat)
    requires i <= j <= |data| && !At(m, data, i).Done?
    ensures At(m, data, j) == At(m, data, i)
    decreases j - i
  {
    if i < j {
      AtNext(m, data, i);
      AtStays(m, data, i + 1, j);
    }
  }

  lemma AtEnd(m: Machine, data: string)
    ensures At(m, data, |data|) == Run(m, data)
  {
    assert data[..|data|] == data;
  }

  /** The run so far, with the bytes of a bulk loop not yet counted into nread: failed if they already overflow. */
  predicate Behind(m: Machine, data: string, i: nat, p: Parser, base: nat, c: Ctx, pin: Pin)
    requires i <= |data| && (pin.Some? ==> pin.value.1 <= i)
  {
    if base > MAX_HEADER_SIZE then At(m, data, i).Failed?
    else At(m, data, i) == Done(Machine(p.(nread := base), Pending(c, pin, data, i)))
  }

  /** What one more byte does to the run behind a bulk loop. */
  predicate NextIs(p: Parser, base: nat, c: Ctx, d: Data, b: char, q: Parser) {
    One(Machine(p.(nread := base), c), b) ==
      if base + 1 > MAX_HEADER_SIZE then Failed else Done(Machine(q.(nread := base + 1), Deliver(c, d, [b])))
  }

  lemma BehindStep(m: Machine, data: string, i: nat, p: Parser, q: Parser, base: nat, c: Ctx, pin: Pin)
    requires i < |data| && pin.Some? && pin.value.1 <= i && Behind(m, data, i, p, base, c, pin)
    requires NextIs(p, base, Pending(c, pin, data, i), pin.value.0, data[i], q)
    ensures Behind(m, data, i + 1, q, base + 1, c, pin)
  {
    AtNext(m, data, i);
    PendingGrows(c, pin, data, i);
  }

  lemma FieldShape(p: Parser, b: char)
    ensures MatchField(p, b).st == p.st && MatchField(p, b).nread == p.nread
    ensures p.hs.General? ==> MatchField(p, b) == p
  {
  }

  lemma NextField(p: Parser, base: nat, c: Ctx, b: char)
    requires p.st.Field? && Token(b) != '\0'
    ensures NextIs(p, base, c, FieldData, b, MatchField(p, b))
  {
    hide MatchField, Deliver, Advance;
    OneField(Machine(p.(nread := base), c), b);
    MatchFieldNread(p, b, base + 1);
  }

  lemma FieldByte(m: Machine, data: string, i: nat, p: Parser, base: nat, c: Ctx, pin: Pin)
    requires i < |data| && p.st.Field? && Token(data[i]) != '\0'
    requires KindOf(pin) == Some(FieldData) && pin.value.1 <= i && Behind(m, data, i, p, base, c, pin)
    ensures Behind(m, data, i + 1, MatchField(p, data[i]), base + 1, c, pin)
    ensures MatchField(p, data[i]).st.Field? && MatchField(p, data[i]).nread == p.nread
    ensures p.hs.General? ==> MatchField(p, data[i]) == p
  {
    hide MatchField;
    FieldShape(p, data[i]);
    NextField(p, base, Pending(c, pin, data, i), data[i]);
    BehindStep(m, data, i, p, MatchField(p, data[i]), base, c, pin);
  }

  lemma OnValueNread(p: Parser, b: char, n: nat)
    requires b != CR && b != LF
    ensures SameButNread(OnValue(p, b), OnValue(p.(nread := n), b), n)
    ensures p.hs.General? ==> OnValue(p, b) == (if !p.lenient && !IsHeaderChar(b) then Fail(InvalidHeaderToken) else Go(p, []))
  {
    MatchValueNread(p, b, n);
  }

  lemma ValueShape(p: Parser, b: char)
    requires p.st.Value? && b != CR && b != LF
    ensures OnValue(p, b).Fail? || (OnValue(p, b).parser.st.Value? && OnValue(p, b).parser.nread == p.nread)
  {
    hide MatchValue;
    MatchValueQuiet(p, b);
    MatchValueNread(p, b, p.nread);
    assert p.(nread := p.nread) == p;
  }

  lemma NextValue(p: Parser, base: nat, c: Ctx, b: char)
    requires p.st.Value? && b != CR && b != LF
    ensures var o := OnValue(p, b);
      if o.Fail? then One(Machine(p.(nread := base), c), b).Failed? else NextIs(p, base, c, ValueData, b, o.parser)
  {
    hide OnValue, Deliver, Advance;
    OneValue(Machine(p.(nread := base), c), b);
    OnValueNread(p, b, base + 1);
  }

  lemma ValueByte(m: Machine, data: string, i: nat, p: Parser, base: nat, c: Ctx, pin: Pin)
    requires i < |data| && p.st.Value? && data[i] != CR && data[i] != LF
    requires KindOf(pin) == Some(ValueData) && pin.value.1 <= i && Behind(m, data, i, p, base, c, pin)
    ensures var o := OnValue(p, data[i]);
      if o.Fail? then At(m, data, i + 1).Failed?
      else Behind(m, data, i + 1, o.parser, base + 1, c, pin) && o.parser.st.Value? && o.parser.nread == p.nread
    ensures p.hs.General? ==> OnValue(p, data[i]) == (if !p.lenient && !IsHeaderChar(data[i]) then Fail(InvalidHeaderToken) else Go(p, []))
  {
    hide MatchValue;
    ValueShape(p, data[i]);
    OnValueNread(p, data[i], base);
    NextValue(p, base, Pending(c, pin, data, i), data[i]);
    var o := OnValue(p, data[i]);
    if o.Fail? { AtNext(m, data, i); } else { BehindStep(m, data, i, p, o.parser, base, c, pin); }
  }

  /** The loop of the header_field state: a name read up to a byte that is no token, or to the end of the data. */
  method ReadField(p: Parser, data: string, i: nat, ghost m: Machine, ghost c: Ctx, ghost pin: Pin)
      returns (q: Parser, j: nat)
    requires i < |data| && p.st.Field? && NameState(p.hs) && 0 < p.nread
    requires KindOf(pin) == Some(FieldData) && pin.value.1 <= i && Behind(m, data, i, p, p.nread - 1, c, pin)
    ensures i <= j <= |data| && (j < |data| ==> Token(data[j]) == '\0')
    ensures q.st.Field? && q.nread == p.nread && Behind(m, data, j, q, p.nread - 1 + (j - i), c, pin)
  {
    hide Behind, MatchField;
    q, j := p, i;
    while j < |data| && Token(data[j]) != '\0'
      invariant i <= j <= |data| && q.st.Field? && q.nread == p.nread
      invariant Behind(m, data, j, q, p.nread - 1 + (j - i), c, pin)
    {
      if q.hs.General? {
        var pe := j + (if |data| - j < MAX_HEADER_SIZE then |data| - j else MAX_HEADER_SIZE);
        while j + 1 < pe && Token(data[j + 1]) != '\0'
          invariant i <= j < pe <= |data| && Token(data[j]) != '\0'
          invariant Behind(m, data, j, q, p.nread - 1 + (j - i), c, pin)
        {
          FieldByte(m, data, j, q, p.nread - 1 + (j - i), c, pin);
          j := j + 1;
        }
      }
      FieldByte(m, data, j, q, p.nread - 1 + (j - i), c, pin);
      q := MatchField(q, data[j]);
      j := j + 1;
    }
  }

  /** The loop of the header_value state, up to CR or LF or an error. Its inner loop steps over one byte after
      max_header_size plain ones; by then the count is past the limit. */
  method ReadValue(p: Parser, data: string, i: nat, ghost m: Machine, ghost c: Ctx, ghost pin: Pin)
      returns (q: Parser, j: nat, errno: Option<Errno>)
    requires i < |data| && p.st.Value? && 0 < p.nread
    requires KindOf(pin) == Some(ValueData) && pin.value.1 <= i && Behind(m, data, i, p, p.nread - 1, c, pin)
    ensures errno.Some? ==> j < |data| && At(m, data, j + 1).Failed?
    ensures errno.None? ==> i <= j <= |data| && (j < |data| ==> data[j] == CR || data[j] == LF)
    ensures errno.None? ==> q.st.Value? && q.nread == p.nread && Behind(m, data, j, q, p.nread - 1 + (j - i), c, pin)
  {
    hide Behind, OnValue;
    q, j, errno := p, i, None;
    while j < |data| && data[j] != CR && data[j] != LF
      invariant i <= j <= |data| && q.st.Value? && q.nread == p.nread
      invariant Behind(m, data, j, q, p.nread - 1 + (j - i), c, pin)
    {
      ValueByte(m, data, j, q, p.nread - 1 + (j - i), c, pin);
      var o := OnValue(q, data[j]);
      if o.Fail? { return q, j, Some(o.errno); }
      if q.hs.General? {
        var pe := j + (if |data| - j < MAX_HEADER_SIZE then |data| - j else MAX_HEADER_SIZE);
        ghost var from := j;
        while j != pe && data[j] != CR && data[j] != LF
          invariant from <= j <= pe <= |data| && q.st.Value? && q.hs.General?
          invariant Behind(m, data, j, q, p.nread - 1 + (j - i), c, pin)
          decreases pe - j
        {
          ValueByte(m, data, j, q, p.nread - 1 + (j - i), c, pin);
          if !q.lenient && !IsHeaderChar(data[j]) { return q, j, Some(InvalidHeaderToken); }
          j := j + 1;
        }
        if j == pe && pe < |data| {
          Overflows(m, data, j, q, p.nread - 1 + (j - i), c, pin);
          j := j + 1;
        }
      } else {
        q := o.parser;
        j := j + 1;
      }
    }
  }

  /** Whatever the byte, a count at the limit cannot take one more in a header state. */
  lemma Overflows(m: Machine, data: string, i: nat, p: Parser, base: nat, c: Ctx, pin: Pin)
    requires i < |data| && ParsingHeader(p.st) && MAX_HEADER_SIZE <= base
    requires (pin.Some? ==> pin.value.1 <= i) && Behind(m, data, i, p, base, c, pin)
    ensures Behind(m, data, i + 1, p, base + 1, c, pin)
  {
    AtNext(m, data, i);
  }

  // ------------------------------------------------------------------ the object

  /** The mark pointers: those that are set. */
  function AsMap(pin: Pin): map<Data, nat> { if pin.None? then map[] else map[pin.value.0 := pin.value.1] }

  /** One byte on, marks and all. */
  lemma StepSync(m: Machine, data: string, i: nat, p: Parser, c: Ctx, pin: Pin)
    requires i < |data| && (pin.Some? ==> pin.value.1 <= i) && Carried(p.st, KindOf(pin))
    requires At(m, data, i) == Done(Machine(p, Pending(c, pin, data, i)))
    ensures var o := Advance(p, data[i]);
      if o.Fail? then At(m, data, i + 1).Failed?
      else
        var (a, q) := RunActs(c, pin, o.acts, data, i);
        (q.Some? ==> q.value.1 <= i) && Carried(o.parser.st, KindOf(q)) && OneAtMost(KindOf(pin), o.acts) &&
        At(m, data, i + 1) ==
          if o.Go? then Done(Machine(o.parser, Pending(a, q, data, i + 1)))
          else Left(Machine(o.parser, Pending(a, q, data, i + 1)), i + 1)
  {
    hide Switch;
    AtNext(m, data, i);
    var o := Advance(p, data[i]);
    if !o.Fail? {
      MarksAlwaysFit(Counted(p), data[i], KindOf(pin));
      ByteInStep(Machine(p, Pending(c, pin, data, i)), c, pin, data, i);
    }
  }

  /** A run that has failed by some byte has failed on the whole. */
  lemma FailsBy(m: Machine, data: string, i: nat)
    requires i <= |data| && At(m, data, i).Failed?
    ensures Run(m, data).Failed?
  {
    AtStays(m, data, i, |data|);
    AtEnd(m, data);
  }

  lemma ReachableAt(m: Machine, data: string, i: nat)
    requires i <= |data| && Reachable(m.parser) && At(m, data, i).Done?
    ensures Reachable(At(m, data, i).m.parser)
  {
    RunReachable(m, data[..i]);
  }

  lemma RunFlush(c: Ctx, pin: Pin, data: string, i: nat)
    requires i < |data| && pin.Some? && pin.value.1 <= i
    ensures RunActs(c, pin, [Flush(pin.value.0)], data, i) == (Deliver(c, pin.value.0, data[pin.value.1..i]), None)
  {
    assert [Flush(pin.value.0)][1..] == [];
  }

  /** MARK(body) at i. */
  function BodyPin(pin: Pin, i: nat): Pin { if pin.None? then Some((Body, i)) else pin }

  lemma BodyPending(c: Ctx, pin: Pin, data: string, i: nat, k: nat)
    requires i + k <= |data| && (pin.Some? ==> pin.value.1 <= i && pin.value.0.Body?)
    ensures var a := Pending(c, pin, data, i);
      a.(body := a.body + data[i..i + k]) == Pending(c, BodyPin(pin, i), data, i + k)
  {
    PendingExtends(c, BodyPin(pin, i), data, i, k);
    var a := Pending(c, pin, data, i);
    if k == 0 { assert a.body + data[i..i + k] == a.body; }
  }

  /** k body bytes at once, as to_read takes them, are k steps of the run. */
  lemma BulkSync(m: Machine, data: string, i: nat, k: nat, p: Parser, c: Ctx, pin: Pin)
    requires i + k <= |data| && (pin.Some? ==> pin.value.1 <= i && pin.value.0.Body?)
    requires At(m, data, i) == Done(Machine(p, Pending(c, pin, data, i)))
    requires p.st.BodyIdentityEof? || (p.st.BodyIdentity? && k < p.contentLength) || (p.st.ChunkData? && 0 < k <= p.contentLength)
    ensures var n := p.contentLength - k;
      var q := if p.st.BodyIdentityEof? then p else if p.st.BodyIdentity? then p.(contentLength := n)
        else p.(contentLength := n, st := if n == 0 then ChunkDataAlmostDone else ChunkData);
      At(m, data, i + k) == Done(Machine(q, Pending(c, BodyPin(pin, i), data, i + k)))
  {
    hide One, Pending;
    var a := Machine(p, Pending(c, pin, data, i));
    assert data[..i] + data[i..i + k] == data[..i + k];
    RunJoin(m, data[..i], data[i..i + k]);
    BodyPending(c, pin, data, i, k);
    if p.st.BodyIdentityEof? { EofBulk(a, data[i..i + k]); }
    else if p.st.BodyIdentity? { IdentityBulk(a, data[i..i + k]); }
    else { ChunkBulk(a, data[i..i + k]); }
  }

  /** An upgraded message leaves the parser between messages, where no mark is set. */
  predicate Between(o: Outcome) {
    o.Leave? ==> o.parser.st.Dead? || o.parser.st.StartReq? || o.parser.st.StartRes?
  }

  lemma DoneBetween(p: Parser, b: char)
    ensures Between(OnMessageDone(p)) && Between(OnHeadersDone(p)) && Between(OnHeadersAlmostDone(p, b))
  {
  }

  lemma FieldStartBetween(p: Parser, b: char)
    ensures Between(OnFieldStart(p, b))
  {
    hide OnHeadersAlmostDone;
    DoneBetween(p.(st := HeadersAlmostDone), b);
  }

  lemma LwsBetween(p: Parser, b: char)
    ensures Between(OnDiscardLws(p, b)) && Between(OnValueLws(p, b))
  {
    hide OnFieldStart, OnHeadersAlmostDone;
    FieldStartBetween(FinishHeader(p), b);
  }

  lemma NamesStay(p: Parser, b: char)
    ensures p.st.Field? ==> Between(OnField(p, b))
    ensures p.st.DiscardWs? ==> Between(OnDiscardWs(p, b))
    ensures Between(OnValueStart(p, b))
  {
    hide MatchField;
  }

  lemma ValuesStay(p: Parser, b: char)
    requires p.st.Value?
    ensures Between(OnValue(p, b))
  {
    hide MatchValue;
    MatchValueQuiet(p, b);
  }

  lemma HeaderBetween(p: Parser, b: char)
    requires InHeader(p.st)
    ensures Between(Switch(p, b))
  {
    hide Between, OnHeadersAlmostDone, OnFieldStart, OnField, OnDiscardWs, OnDiscardLws, OnValueStart, OnValue, OnValueLws, StartLine;
    DoneBetween(p, b);
    FieldStartBetween(p, b);
    LwsBetween(p, b);
    NamesStay(p, b);
    if p.st.Value? { ValuesStay(p, b); }
  }

  lemma StartLineStays(p: Parser, b: char)
    requires InStartLine(p.st)
    ensures !StartLine(p, b).Leave?
  {
    hide Clean, SwitchMethod, Name, ParseUrlChar, IsAlpha, FirstMethod;
  }

  lemma StartLineBetween(p: Parser, b: char)
    requires InStartLine(p.st)
    ensures Between(Switch(p, b))
  {
    hide StartLine, InUrl;
    StartLineStays(p, b);
  }

  lemma BodyBetween(p: Parser, b: char)
    requires !InStartLine(p.st) && !InHeader(p.st)
    ensures Between(Switch(p, b))
  {
    hide StartLine, OnHeadersDone, OnMessageDone, NewMessage, InUrl, OnFieldStart, OnField, OnDiscardWs, OnDiscardLws;
    hide OnValueStart, OnValue, OnValueLws, OnHeadersAlmostDone, InStartLine;
    DoneBetween(p, b);
    DoneBetween(p.(contentLength := if p.contentLength > 0 then p.contentLength - 1 else 0, st := MessageDone), b);
  }

  lemma LeaveIsBetween(p: Parser, b: char)
    ensures Between(Switch(p, b))
  {
    hide Switch, InStartLine, Between;
    if InHeader(p.st) {
      HeaderBetween(p, b);
    } else if InStartLine(p.st) {
      StartLineBetween(p, b);
    } else {
      BodyBetween(p, b);
    }
  }

  lemma RunLast(c: Ctx, pin: Pin, data: string, i: nat)
    requires i < |data| && pin.Some? && pin.value.0.Body? && pin.value.1 <= i
    ensures RunActs(c, pin, [Mark(Body), FlushThis(Body)] + [MessageComplete], data, i) ==
      (OnMessageComplete(Deliver(c, Body, data[pin.value.1..i + 1])), None)
  {
    var x: seq<Act> := [Mark(Body), FlushThis(Body)] + [MessageComplete];
    assert x == [Mark(Body), FlushThis(Body), MessageComplete] && x[1..] == [FlushThis(Body), MessageComplete];
    assert x[1..][1..] == [MessageComplete] && x[1..][1..][1..] == [];
    var a := Deliver(c, Body, data[pin.value.1..i + 1]);
    assert RunActs(a, None, [MessageComplete], data, i) == (OnMessageComplete(a), None);
    assert RunActs(c, pin, x[1..], data, i) == RunActs(a, None, x[1..][1..], data, i);
  }

  lemma TooMany(p: Parser, b: char)
    requires ParsingHeader(p.st) && p.nread >= MAX_HEADER_SIZE
    ensures Advance(p, b).Fail?
  {
  }

  function Concat(pieces: seq<string>): string {
    if pieces == [] then "" else Concat(pieces[..|pieces| - 1]) + pieces[|pieces| - 1]
  }

  lemma {:induction false} ConcatSplit(pieces: seq<string>, k: nat) returns (rest: string)
    requires k <= |pieces|
    ensures Concat(pieces) == Concat(pieces[..k]) + rest
  {
    if k == |pieces| {
      assert pieces[..k] == pieces;
      rest := "";
    } else {
      var init := pieces[..|pieces| - 1];
      rest := ConcatSplit(init, k);
      assert init[..k] == pieces[..k];
      rest := rest + pieces[|pieces| - 1];
    }
  }

  /** A run over the whole that is not left by an upgrade is not left on the way either. */
  lemma PartRuns(m: Machine, pieces: seq<string>, k: nat)
    requires k <= |pieces| && !Run(m, Concat(pieces)).Left?
    ensures !Run(m, Concat(pieces[..k])).Left?
    ensures Run(m, Concat(pieces[..k])).Failed? ==> Run(m, Concat(pieces)).Failed?
  {
    var rest := ConcatSplit(pieces, k);
    RunJoin(m, Concat(pieces[..k]), rest);
  }

  lemma Piece(m: Machine, pieces: seq<string>, k: nat)
    requires k < |pieces| && Run(m, Concat(pieces[..k])).Done?
    ensures var r, all := Run(Run(m, Concat(pieces[..k])).m, pieces[k]), Run(m, Concat(pieces[..k + 1]));
      (r.Left? <==> all.Left?) && (!r.Left? ==> r == all)
  {
    assert pieces[..k + 1][..k] == pieces[..k];
    RunJoin(m, Concat(pieces[..k]), pieces[k]);
  }

  /** The last byte of an identity body: the body is delivered and the message complete; an upgrade leaves the rest. */
  lemma BodyEnds(m: Machine, data: string, j: nat, p: Parser, c: Ctx, pin: Pin)
    requires 0 < j <= |data| && p.st.BodyIdentity? && pin.Some? && pin.value.0.Body? && pin.value.1 < j
    requires At(m, data, j - 1) == Done(Machine(p.(contentLength := 1), Pending(c, pin, data, j - 1)))
    ensures var q := NewMessage(p.(contentLength := 0, st := MessageDone));
      var d := OnMessageComplete(Deliver(c, Body, data[pin.value.1..j]));
      if p.upgrade then Run(m, data) == Left(Machine(q, d), j)
      else Carried(q.st, None) && At(m, data, j) == Done(Machine(q, Pending(d, None, data, j)))
  {
    hide Run, Advance, NewMessage, Deliver, OnMessageComplete, RunActs, At;
    var q := p.(contentLength := 1);
    IdentityEnds(q, data[j - 1]);
    StepSync(m, data, j - 1, q, c, pin);
    RunLast(c, pin, data, j - 1);
    if p.upgrade {
      AtStays(m, data, j, |data|);
      AtEnd(m, data);
    }
  }

  class Connection {
    var parser: Parser
    var errno: Option<Errno>
    var ctx: Ctx

    /** init: a fresh parser and a cleared context. */
    constructor (kind: Kind)
      ensures parser == Fresh(kind) && errno.None? && ctx == NEW_CTX
    {
      parser, errno, ctx := Fresh(kind), None, NEW_CTX;
    }

    ghost predicate Sync(m: Machine, data: string, i: nat, marks: map<Data, nat>, pin: Pin)
      reads this
    {
      i <= |data| && (pin.Some? ==> pin.value.1 <= i) && errno.None? && marks == AsMap(pin) &&
      Carried(parser.st, KindOf(pin)) && At(m, data, i) == Done(Machine(parser, Pending(ctx, pin, data, i)))
    }

    /** MARK and the CALLBACK macros, for the acts of byte i. */
    method Perform(acts: seq<Act>, data: string, i: nat, marks0: map<Data, nat>, ghost pin0: Pin)
        returns (marks: map<Data, nat>, ghost pin: Pin)
      requires i < |data| && (pin0.Some? ==> pin0.value.1 <= i) && marks0 == AsMap(pin0) && OneAtMost(KindOf(pin0), acts)
      modifies this`ctx
      ensures (ctx, pin) == RunActs(old(ctx), pin0, acts, data, i) && marks == AsMap(pin)
    {
      marks, pin := marks0, pin0;
      var k := 0;
      while k < |acts|
        invariant k <= |acts| && marks == AsMap(pin) && (pin.Some? ==> pin.value.1 <= i)
        invariant OneAtMost(KindOf(pin), acts[k..])
        invariant RunActs(ctx, pin, acts[k..], data, i) == RunActs(old(ctx), pin0, acts, data, i)
      {
        assert acts[k..][0] == acts[k] && acts[k..][1..] == acts[k + 1..];
        match acts[k] {
          case Mark(d) =>
            if d !in marks { marks, pin := marks[d := i], Some((d, i)); }
          case Flush(d) =>
            if d in marks {
              ctx := Deliver(ctx, d, data[marks[d]..i]);
              marks, pin := marks - {d}, None;
            }
          case FlushThis(d) =>
            if d in marks {
              ctx := Deliver(ctx, d, data[marks[d]..i + 1]);
              marks, pin := marks - {d}, None;
            }
          case HeadersComplete => ctx := OnHeadersComplete(ctx);
          case MessageComplete => ctx := OnMessageComplete(ctx);
        }
        k := k + 1;
      }
    }

    /** The header_field state, from a byte already counted. */
    method FieldState(data: string, i: nat, marks0: map<Data, nat>, ghost m: Machine, ghost pin0: Pin)
        returns (j: nat, marks: map<Data, nat>, ghost pin: Pin)
      requires i < |data| <= MAX_PIECE && errno.None? && marks0 == AsMap(pin0)
      requires parser.st.Field? && NameState(parser.hs) && 0 < parser.nread <= MAX_HEADER_SIZE
      requires KindOf(pin0) == Some(FieldData) && pin0.value.1 <= i
      requires Behind(m, data, i, parser, parser.nread - 1, ctx, pin0)
      modifies this
      ensures errno.Some? ==> j < |data| && Run(m, data).Failed?
      ensures errno.None? ==> i < j && Sync(m, data, j, marks, pin) && (pin.Some? ==> pin.value.1 < j)
    {
      hide Run, Advance, Token;
      marks, pin := marks0, pin0;
      var q;
      q, j := ReadField(parser, data, i, m, ctx, pin);
      ghost var base := parser.nread - 1 + (j - i);
      var last := if j == |data| then j - 1 else j;
      parser := q.(nread := Add32(q.nread, last - i));
      assert parser.nread == q.nread + (last - i);
      if parser.nread > MAX_HEADER_SIZE {
        errno := Some(HeaderOverflow);
        if base <= MAX_HEADER_SIZE { Overflows(m, data, j, q, base, ctx, pin); FailsBy(m, data, j + 1); } else { FailsBy(m, data, j); }
        return last, marks, pin;
      }
      if j < |data| {
        ghost var p := q.(nread := base);
        FieldEnds(p, data[j]);
        StepSync(m, data, j, p, ctx, pin);
        if data[j] != ':' {
          errno := Some(InvalidHeaderToken);
          FailsBy(m, data, j + 1);
          return j, marks, pin;
        }
        RunFlush(ctx, pin, data, j);
        ctx := Deliver(ctx, FieldData, data[marks[FieldData]..j]);
        marks, pin := marks - {FieldData}, None;
        parser := parser.(st := DiscardWs);
        j := j + 1;
      }
    }

    /** The header_value state, from a byte already counted. */
    method ValueState(data: string, i: nat, marks0: map<Data, nat>, ghost m: Machine, ghost pin0: Pin)
        returns (j: nat, marks: map<Data, nat>, ghost pin: Pin)
      requires i < |data| <= MAX_PIECE && errno.None? && marks0 == AsMap(pin0)
      requires parser.st.Value? && 0 < parser.nread <= MAX_HEADER_SIZE
      requires KindOf(pin0) == Some(ValueData) && pin0.value.1 <= i
      requires Behind(m, data, i, parser, parser.nread - 1, ctx, pin0)
      modifies this
      ensures errno.Some? ==> j < |data| && Run(m, data).Failed?
      ensures errno.None? ==> i < j && Sync(m, data, j, marks, pin) && (pin.Some? ==> pin.value.1 < j)
    {
      hide Run, Advance;
      marks, pin := marks0, pin0;
      var q, e;
      q, j, e := ReadValue(parser, data, i, m, ctx, pin);
      if e.Some? {
        errno := e;
        FailsBy(m, data, j + 1);
        return j, marks, pin;
      }
      ghost var base := parser.nread - 1 + (j - i);
      var last := if j == |data| then j - 1 else j;
      ghost var c := ctx;
      if j < |data| {
        // the source flushes before the count on CR and after it on LF; a failed count ends the run either way
        ctx := Deliver(ctx, ValueData, data[marks[ValueData]..j]);
        marks, pin := marks - {ValueData}, None;
        parser := q.(st := if data[j] == CR then HeaderAlmostDone else ValueLws, nread := Add32(q.nread, last - i));
      } else {
        parser := q.(nread := Add32(q.nread, last - i));
      }
      assert parser.nread == q.nread + (last - i);
      if parser.nread > MAX_HEADER_SIZE {
        errno := Some(HeaderOverflow);
        if base <= MAX_HEADER_SIZE { Overflows(m, data, j, q, base, c, pin0); FailsBy(m, data, j + 1); } else { FailsBy(m, data, j); }
        return last, marks, pin;
      }
      if j < |data| {
        ghost var p := q.(nread := base);
        ValueEnds(p, data[j]);
        StepSync(m, data, j, p, c, pin0);
        RunFlush(c, pin0, data, j);
        j := j + 1;
      }
    }

    /** The body states. */
    method BodyState(data: string, i: nat, marks0: map<Data, nat>, ghost m: Machine, ghost pin0: Pin)
        returns (j: nat, marks: map<Data, nat>, exit: bool, ghost pin: Pin)
      requires i < |data| && Sync(m, data, i, marks0, pin0)
      requires parser.st.BodyIdentityEof? || ((parser.st.BodyIdentity? || parser.st.ChunkData?) && 0 < parser.contentLength)
      modifies this`parser, this`ctx
      ensures exit ==> j <= |data| && Run(m, data) == Left(Machine(parser, ctx), j)
      ensures !exit ==> i < j && Sync(m, data, j, marks, pin) && (pin.Some? ==> pin.value.1 < j)
    {
      hide Run, Advance, NewMessage, Deliver, OnMessageComplete, RunActs;
      marks := if Body in marks0 then marks0 else marks0[Body := i];
      pin := BodyPin(pin0, i);
      ghost var p := parser;
      exit := false;
      if parser.st.BodyIdentityEof? {
        BulkSync(m, data, i, |data| - i, p, ctx, pin0);
        return |data|, marks, false, pin;
      }
      var toRead := if parser.contentLength < |data| - i then parser.contentLength else |data| - i;
      parser := parser.(contentLength := parser.contentLength - toRead);
      j := i + toRead;
      if parser.st.ChunkData? {
        BulkSync(m, data, i, toRead, p, ctx, pin0);
        if parser.contentLength == 0 { parser := parser.(st := ChunkDataAlmostDone); }
      } else if parser.contentLength > 0 {
        BulkSync(m, data, i, toRead, p, ctx, pin0);
      } else {
        BulkSync(m, data, i, toRead - 1, p, ctx, pin0);
        BodyEnds(m, data, j, p, ctx, pin);
        ctx := Deliver(ctx, Body, data[marks[Body]..j]);
        marks, pin := marks - {Body}, None;
        exit := parser.upgrade;
        parser := NewMessage(parser.(st := MessageDone));
        ctx := OnMessageComplete(ctx);
      }
    }

    /** Every other state, one byte at a time. */
    method OtherState(data: string, i: nat, marks0: map<Data, nat>, ghost m: Machine, ghost pin0: Pin, ghost p: Parser)
        returns (j: nat, marks: map<Data, nat>, exit: bool, ghost pin: Pin)
      requires i < |data| && errno.None? && marks0 == AsMap(pin0) && (pin0.Some? ==> pin0.value.1 <= i)
      requires Carried(p.st, KindOf(pin0)) && At(m, data, i) == Done(Machine(p, Pending(ctx, pin0, data, i)))
      requires parser == Counted(p) && parser.nread <= MAX_HEADER_SIZE
      modifies this
      ensures errno.Some? ==> j < |data| && Run(m, data).Failed?
      ensures errno.None? && exit ==> j <= |data| && Run(m, data) == Left(Machine(parser, ctx), j)
      ensures errno.None? && !exit ==> i < j && Sync(m, data, j, marks, pin) && (pin.Some? ==> pin.value.1 < j)
    {
      hide Run, Switch;
      StepSync(m, data, i, p, ctx, pin0);
      marks, pin, exit := marks0, pin0, false;
      var o := Switch(parser, data[i]);
      if o.Fail? {
        errno := Some(o.errno);
        FailsBy(m, data, i + 1);
        return i, marks, exit, pin;
      }
      parser := o.parser;
      marks, pin := Perform(o.acts, data, i, marks0, pin0);
      exit := o.Leave?;
      j := i + 1;
      if exit {
        LeaveIsBetween(Counted(p), data[i]);
        AtStays(m, data, j, |data|);
        AtEnd(m, data);
      }
    }

    lemma AllPending(c: Ctx, pin: Pin, data: string)
      requires pin.Some? ==> pin.value.1 < |data|
      ensures Pending(c, pin, data, |data|) == if pin.None? then c else Deliver(c, pin.value.0, data[pin.value.1..])
    {
      hide Deliver;
      if pin.Some? { assert data[pin.value.1..|data|] == data[pin.value.1..]; }
    }

    /** The callbacks for a mark left over at the end of the data. */
    method Leftover(data: string, marks0: map<Data, nat>, ghost m: Machine, ghost pin: Pin)
      requires data != "" && Sync(m, data, |data|, marks0, pin) && (pin.Some? ==> pin.value.1 < |data|)
      modifies this`ctx
      ensures Run(m, data) == Done(Machine(parser, ctx))
    {
      AtEnd(m, data);
      AllPending(ctx, pin, data);
      hide Run, Deliver, Pending;
      if FieldData in marks0 { ctx := Deliver(ctx, FieldData, data[marks0[FieldData]..]); }
      if ValueData in marks0 { ctx := Deliver(ctx, ValueData, data[marks0[ValueData]..]); }
      if Url in marks0 { ctx := Deliver(ctx, Url, data[marks0[Url]..]); }
      if Body in marks0 { ctx := Deliver(ctx, Body, data[marks0[Body]..]); }
      if Status in marks0 { ctx := Deliver(ctx, Status, data[marks0[Status]..]); }
    }

    /** One turn of the loop: the byte at i and, in the bulk states, those after it. */
    method Turn(data: string, i: nat, marks0: map<Data, nat>, ghost m: Machine, ghost pin0: Pin)
        returns (j: nat, marks: map<Data, nat>, exit: bool, ghost pin: Pin)
      requires i < |data| <= MAX_PIECE && Reachable(m.parser) && Sync(m, data, i, marks0, pin0)
      modifies this
      ensures errno.Some? ==> j < |data| && Run(m, data).Failed?
      ensures errno.None? && exit ==> j <= |data| && Run(m, data) == Left(Machine(parser, ctx), j)
      ensures errno.None? && !exit ==> i < j && Sync(m, data, j, marks, pin) && (pin.Some? ==> pin.value.1 < j)
    {
      hide Run, Advance, Switch, Pending;
      ghost var p := parser;
      ReachableAt(m, data, i);
      marks, pin, exit := marks0, pin0, false;
      if ParsingHeader(parser.st) {
        parser := parser.(nread := Add32(parser.nread, 1));
        if parser.nread > MAX_HEADER_SIZE {
          errno := Some(HeaderOverflow);
          StepSync(m, data, i, p, ctx, pin0);
          TooMany(p, data[i]);
          FailsBy(m, data, i + 1);
          return i, marks, exit, pin;
        }
      }
      if parser.st.Field? {
        j, marks, pin := FieldState(data, i, marks0, m, pin0);
      } else if parser.st.Value? {
        j, marks, pin := ValueState(data, i, marks0, m, pin0);
      } else if parser.st.BodyIdentityEof? || parser.st.BodyIdentity? || parser.st.ChunkData? {
        j, marks, exit, pin := BodyState(data, i, marks0, m, pin0);
      } else {
        j, marks, exit, pin := OtherState(data, i, marks0, m, pin0, p);
      }
    }

    /** Whether the parser, the consumer and the error flag are what a run says. */
    ghost predicate Agrees(r: Result, data: string, n: nat)
      reads this
    {
      match r
      case Done(a) => n == |data| && errno.None? && Machine(parser, ctx) == a
      case Left(a, k) => n == k && errno.None? && Machine(parser, ctx) == a
      case Failed => n < |data| && errno.Some?
    }

    /** The byte loop, from the marks set on entry to the callbacks for those left at the end. */
    method Scan(data: string) returns (n: nat)
      requires 0 < |data| <= MAX_PIECE && Reachable(parser) && errno.None?
      modifies this
      ensures Agrees(Run(old(Machine(parser, ctx)), data), data, n)
    {
      ghost var m := Machine(parser, ctx);
      var mark := MarkAt(parser.st);
      ghost var pin: Pin := if mark.Some? then Some((mark.value, 0)) else None;
      var marks := if mark.Some? then map[mark.value := 0] else map[];
      var i := 0;
      assert Sync(m, data, 0, marks, pin);
      hide Run, Pending, MarkAt, Reachable;
      while i < |data|
        invariant i <= |data| && (i > 0 && pin.Some? ==> pin.value.1 < i) && Sync(m, data, i, marks, pin)
        decreases |data| - i
      {
        var exit;
        i, marks, exit, pin := Turn(data, i, marks, m, pin);
        if errno.Some? || exit { return i; }
      }
      Leftover(data, marks, m, pin);
      return |data|;
    }

    /** http_parser_execute: on any data the parser and the consumer end up where feeding it byte by byte leads. */
    method Execute(data: string) returns (n: nat)
      requires |data| <= MAX_PIECE && Reachable(parser)
      modifies this
      ensures old(errno).Some? ==> n == 0 && errno == old(errno) && parser == old(parser) && ctx == old(ctx)
      ensures old(errno).None? && data == "" ==> parser == old(parser)
      ensures old(errno).None? && data == "" ==>
        (if parser.st.BodyIdentityEof? then n == 0 && errno.None? && ctx == OnMessageComplete(old(ctx))
         else if parser.st.Dead? || parser.st.StartReqOrRes? || parser.st.StartRes? || parser.st.StartReq?
         then n == 0 && errno.None? && ctx == old(ctx)
         else n == 1 && errno == Some(InvalidEofState) && ctx == old(ctx))
      ensures old(errno).None? && data != "" ==> Agrees(Run(old(Machine(parser, ctx)), data), data, n)
    {
      hide Run;
      if errno.Some? {
        n := 0;
      } else if data == "" {
        n := 0;
        if parser.st.BodyIdentityEof? {
          ctx := OnMessageComplete(ctx);
        } else if !(parser.st.Dead? || parser.st.StartReqOrRes? || parser.st.StartRes? || parser.st.StartReq?) {
          errno := Some(InvalidEofState);
          n := 1;
        }
      } else {
        n := Scan(data);
      }
    }

    /** parserAppend: -1 for an error or bytes left unread, 8192 to ask for more, 0 once the message is complete. */
    method Append(data: string) returns (r: int)
      requires 0 < |data| <= MAX_PIECE && Reachable(parser)
      modifies this
      ensures old(errno).None? && !Run(old(Machine(parser, ctx)), data).Left? ==>
        (r == -1 <==> Run(old(Machine(parser, ctx)), data).Failed?) && (r == -1 <==> errno.Some?)
      ensures old(errno).None? && Run(old(Machine(parser, ctx)), data).Done? ==>
        Machine(parser, ctx) == Run(old(Machine(parser, ctx)), data).m && (r == 0 <==> !ctx.recv)
    {
      hide Run;
      var n := Execute(data);
      r := if n != |data| then -1 else if ctx.recv then 8192 else 0;
    }

    /** Fragmentation independence: whatever the pieces, there is an error on the pieces just when there is one on the
        whole, and without one the parser and the consumer end as if the whole had come at once. */
    method AppendAll(pieces: seq<string>) returns (ok: bool)
      requires errno.None? && Reachable(parser)
      requires forall k | 0 <= k < |pieces| :: 0 < |pieces[k]| <= MAX_PIECE
      requires !Run(Machine(parser, ctx), Concat(pieces)).Left?
      modifies this
      ensures ok <==> Run(old(Machine(parser, ctx)), Concat(pieces)).Done?
      ensures ok ==> Machine(parser, ctx) == Run(old(Machine(parser, ctx)), Concat(pieces)).m && errno.None?
    {
      ghost var m := Machine(parser, ctx);
      assert Run(m, Concat(pieces[..0])) == Done(m);
      hide Run, Concat;
      var k := 0;
      while k < |pieces|
        invariant k <= |pieces| && errno.None? && Reachable(parser)
        invariant Run(m, Concat(pieces[..k])) == Done(Machine(parser, ctx))
      {
        ghost var before := Machine(parser, ctx);
        var r := Append(pieces[k]);
        Piece(m, pieces, k);
        PartRuns(m, pieces, k + 1);
        RunReachable(before, pieces[k]);
        if r == -1 { return false; }
        k := k + 1;
      }
      assert pieces[..k] == pieces;
      return true;
    }
  }
}
