/** What one byte of a header name or value does to the run. */
module HttpBytes {
  import opened HttpAutomaton
  import opened HttpConsumer

  /** The counter plays no part inside a name or a value. */
  lemma MatchFieldNread(p: Parser, b: char, n: nat)
    ensures MatchField(p.(nread := n), b) == MatchField(p, b).(nread := n)
  {
    hide Word, Token;
    var q := p.(nread := n);
    assert q.hs == p.hs && q.index == p.index;
    if MatchesName(p.hs) { assert MatchWord(q, Token(b), General) == MatchWord(p, Token(b), General).(nread := n); }
  }

  predicate SameButNread(o: Outcome, q: Outcome, n: nat) {
    if o.Fail? then q.Fail? else o.Go? && o.acts == [] && q == Go(o.parser.(nread := n), [])
  }

  lemma TokenNread(p: Parser, b: char, n: nat)
    requires MatchesToken(p.hs)
    ensures SameButNread(MatchValue(p, b), MatchValue(p.(nread := n), b), n)
  {
    var q := p.(nread := n);
    assert q.hs == p.hs && q.index == p.index;
    assert MatchWord(q, Lower(b), OtherToken(p.hs)) == MatchWord(p, Lower(b), OtherToken(p.hs)).(nread := n);
  }

  lemma AfterTokenNread(p: Parser, b: char, n: nat)
    requires p.hs.KeepAlive? || p.hs.Close? || p.hs.ConnUpgrade?
    ensures SameButNread(MatchValue(p, b), MatchValue(p.(nread := n), b), n)
  {
    assert AfterToken(p.(nread := n), b) == AfterToken(p, b).(nread := n);
  }

  lemma LengthNread(p: Parser, b: char, n: nat)
    ensures SameButNread(ContentLengthDigit(p, b), ContentLengthDigit(p.(nread := n), b), n)
  {
  }

  lemma MatchValueNread(p: Parser, b: char, n: nat)
    ensures SameButNread(MatchValue(p, b), MatchValue(p.(nread := n), b), n)
  {
    var q := p.(nread := n);
    assert q.hs == p.hs;
    if MatchesToken(p.hs) {
      TokenNread(p, b, n);
    } else if p.hs.KeepAlive? || p.hs.Close? || p.hs.ConnUpgrade? {
      AfterTokenNread(p, b, n);
    } else if p.hs.ContentLength? || p.hs.ContentLengthNum? {
      LengthNread(p, b, n);
    }
  }

  lemma SwitchField(p: Parser, b: char)
    requires p.st.Field? && Token(b) != '\0'
    ensures Switch(p, b) == Go(MatchField(p, b), [])
  {
  }

  lemma SwitchValue(p: Parser, b: char)
    requires p.st.Value?
    ensures Switch(p, b) == OnValue(p, b)
  {
  }

  lemma OneIs(a: Machine, b: char, q: Parser, d: Data)
    requires Advance(a.parser, b) == Go(q, []) && MarkAt(a.parser.st) == Some(d)
    ensures One(a, b) == Done(Machine(q, Deliver(a.ctx, d, [b])))
  {
  }

  lemma OneField(a: Machine, b: char)
    requires a.parser.st.Field? && Token(b) != '\0'
    ensures One(a, b) ==
      if a.parser.nread + 1 > MAX_HEADER_SIZE then Failed
      else Done(Machine(MatchField(Counted(a.parser), b), Deliver(a.ctx, FieldData, [b])))
  {
    if a.parser.nread < MAX_HEADER_SIZE {
      SwitchField(Counted(a.parser), b);
      OneIs(a, b, MatchField(Counted(a.parser), b), FieldData);
    }
  }

  lemma OneValue(a: Machine, b: char)
    requires a.parser.st.Value? && b != CR && b != LF
    ensures One(a, b) ==
      if a.parser.nread + 1 > MAX_HEADER_SIZE || OnValue(Counted(a.parser), b).Fail? then Failed
      else Done(Machine(OnValue(Counted(a.parser), b).parser, Deliver(a.ctx, ValueData, [b])))
  {
    if a.parser.nread < MAX_HEADER_SIZE {
      var q := Counted(a.parser);
      SwitchValue(q, b);
      MatchValueNread(q, b, q.nread);
      if !OnValue(q, b).Fail? { OneIs(a, b, OnValue(q, b).parser, ValueData); }
    }
  }

  /** The byte that ends a name. */
  lemma FieldEnds(p: Parser, b: char)
    requires p.st.Field? && Token(b) == '\0' && p.nread < MAX_HEADER_SIZE
    ensures Advance(p, b) ==
      if b == ':' then Go(p.(nread := p.nread + 1, st := DiscardWs), [Flush(FieldData)]) else Fail(InvalidHeaderToken)
  {
  }

  /** CR or LF after a value. */
  lemma ValueEnds(p: Parser, b: char)
    requires p.st.Value? && (b == CR || b == LF) && p.nread < MAX_HEADER_SIZE
    ensures Advance(p, b) ==
      Go(p.(nread := p.nread + 1, st := if b == CR then HeaderAlmostDone else ValueLws), [Flush(ValueData)])
  {
  }
}
