/** Body bytes in bulk: any number of them, read one by one. */
module HttpBodies {
  import opened HttpAutomaton
  import opened HttpConsumer

  /** k body bytes short of the end: the length goes down by k and the bytes are handed over. */
  lemma {:induction false} IdentityBulk(m: Machine, s: string)
    requires m.parser.st.BodyIdentity? && |s| < m.parser.contentLength
    ensures Run(m, s) == Done(Machine(m.parser.(contentLength := m.parser.contentLength - |s|), m.ctx.(body := m.ctx.body + s)))
  {
    hide One;
    if s == "" {
      assert m.ctx.body + s == m.ctx.body;
    } else {
      var init := s[..|s| - 1];
      IdentityBulk(m, init);
      IdentityByte(Run(m, init).m, s[|s| - 1]);
      assert (m.ctx.body + init) + [s[|s| - 1]] == m.ctx.body + s;
    }
  }

  lemma IdentityByte(m: Machine, b: char)
    requires m.parser.st.BodyIdentity? && 1 < m.parser.contentLength
    ensures One(m, b) == Done(Machine(m.parser.(contentLength := m.parser.contentLength - 1), m.ctx.(body := m.ctx.body + [b])))
  {
  }

  lemma {:induction false} ChunkBulk(m: Machine, s: string)
    requires m.parser.st.ChunkData? && |s| <= m.parser.contentLength && 0 < m.parser.contentLength
    ensures var n := m.parser.contentLength - |s|;
      Run(m, s) == Done(Machine(m.parser.(contentLength := n, st := if n == 0 then ChunkDataAlmostDone else ChunkData),
                                m.ctx.(body := m.ctx.body + s)))
  {
    hide One;
    if s == "" {
      assert m.ctx.body + s == m.ctx.body;
    } else {
      var init := s[..|s| - 1];
      ChunkBulk(m, init);
      ChunkByte(Run(m, init).m, s[|s| - 1]);
      assert (m.ctx.body + init) + [s[|s| - 1]] == m.ctx.body + s;
    }
  }

  lemma ChunkByte(m: Machine, b: char)
    requires m.parser.st.ChunkData? && 0 < m.parser.contentLength
    ensures var n := m.parser.contentLength - 1;
      One(m, b) == Done(Machine(m.parser.(contentLength := n, st := if n == 0 then ChunkDataAlmostDone else ChunkData),
                                m.ctx.(body := m.ctx.body + [b])))
  {
  }

  lemma {:induction false} EofBulk(m: Machine, s: string)
    requires m.parser.st.BodyIdentityEof?
    ensures Run(m, s) == Done(Machine(m.parser, m.ctx.(body := m.ctx.body + s)))
  {
    hide One;
    if s == "" {
      assert m.ctx.body + s == m.ctx.body;
    } else {
      var init := s[..|s| - 1];
      EofBulk(m, init);
      EofByte(Run(m, init).m, s[|s| - 1]);
      assert (m.ctx.body + init) + [s[|s| - 1]] == m.ctx.body + s;
    }
  }

  lemma EofByte(m: Machine, b: char)
    requires m.parser.st.BodyIdentityEof?
    ensures One(m, b) == Done(Machine(m.parser, m.ctx.(body := m.ctx.body + [b])))
  {
  }

  /** The last byte of an identity body. */
  lemma IdentityEnds(p: Parser, b: char)
    requires p.st.BodyIdentity? && p.contentLength == 1
    ensures var o := OnMessageDone(p.(contentLength := 0, st := MessageDone));
      Advance(p, b) == Then([Mark(Body), FlushThis(Body)], o) && !o.Fail? && o.acts == [MessageComplete]
  {
  }
}
