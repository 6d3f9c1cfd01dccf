/** Which Content-Length lines are taken, and as what. */
module HttpLengths {
  import opened HttpAutomaton
  import opened HttpHeaders
  import opened HttpConsumer
  import opened HttpMarks
  import opened HttpBytes
  import opened HttpFraming
  import opened HttpRequestLine
  import opened HttpHeaderLines
  import opened HttpListValues
  import opened HttpRoundTrip
  import opened HttpTransfer

  predicate Digits(s: string) { forall i | 0 <= i < |s| :: '0' <= s[i] <= '9' }

  predicate Spaces(s: string) { forall i | 0 <= i < |s| :: s[i] == ' ' }

  function Numeral(s: string): nat
    requires Digits(s)
  {
    if s == "" then 0 else 10 * Numeral(s[..|s| - 1]) + (s[|s| - 1] as int - '0' as int)
  }

  /** k digits of a number that is not too large, and behind them only spaces. */
  predicate LengthShape(v: string, k: nat) {
    0 < k <= |v| && Digits(v[..k]) && Spaces(v[k..]) && Numeral(v[..k]) <= MAX_LENGTH
  }

  predicate IsLength(v: string) { exists k: nat | k <= |v| :: LengthShape(v, k) }

  lemma ReadingOne(q: Parser, c: char)
    requires q.hs.ContentLength?
    ensures var r := Reading(q, [c]);
      if IsNum(c) && !q.flags.contentLength
      then r == Option.Some(q.(st := Value, index := 0, flags := q.flags.(contentLength := true), contentLength := Digit(c), hs := ContentLengthNum))
      else r.None?
  {
    assert [c][1..] == "";
  }

  lemma ReadingMore(q: Parser, v: string)
    requires |v| > 1
    ensures var r := Reading(q, v[..|v| - 1]);
      if r.None? then Reading(q, v).None?
      else var o := MatchValue(r.value, v[|v| - 1]); Reading(q, v) == if o.Fail? then Option.None else Option.Some(o.parser)
  {
    hide MatchValue, OnValueStart;
    assert v[..|v| - 1][1..] == v[1..][..|v| - 2] && v[..|v| - 1][0] == v[0];
  }

  lemma LengthByte(r: Parser, c: char)
    requires r.hs.ContentLengthNum? || r.hs.ContentLengthWs?
    ensures var o := MatchValue(r, c);
      if c == ' ' then o == Go(r.(hs := ContentLengthWs), [])
      else if r.hs.ContentLengthNum? && IsNum(c) && r.contentLength <= MAX_LENGTH / 10
      then o == Go(r.(contentLength := r.contentLength * 10 + Digit(c)), [])
      else o.Fail?
  {
  }

  /** What reading a length has left. */
  predicate ReadAs(q: Parser, r: Parser, n: nat, spaced: bool) {
    r == q.(st := Value, index := 0, flags := q.flags.(contentLength := true), contentLength := n,
            hs := if spaced then ContentLengthWs else ContentLengthNum)
  }

  lemma NumeralGrows(s: string, c: char)
    requires Digits(s) && '0' <= c <= '9'
    ensures Digits(s + [c]) && Numeral(s + [c]) == 10 * Numeral(s) + (c as int - '0' as int)
    ensures Numeral(s + [c]) <= MAX_LENGTH <==> Numeral(s) <= MAX_LENGTH / 10
  {
    assert (s + [c])[..|s|] == s;
  }

  lemma NoNumeral()
    ensures Digits("") && Numeral("") == 0
  {
  }

  lemma ShapeFirst(c: char)
    requires '0' <= c <= '9'
    ensures LengthShape([c], 1) && Numeral([c]) == c as int - '0' as int
  {
    NoNumeral();
    NumeralGrows("", c);
    assert "" + [c] == [c] && [c][..1] == [c] && [c][1..] == "";
  }

  lemma ShapeSpaced(v: string, k: nat)
    requires LengthShape(v, k)
    ensures LengthShape(v + " ", k) && (v + " ")[..k] == v[..k]
  {
    assert (v + " ")[..k] == v[..k] && (v + " ")[k..] == v[k..] + " ";
  }

  lemma ShapeDigit(v: string, c: char)
    requires LengthShape(v, |v|) && '0' <= c <= '9' && Numeral(v[..|v|]) <= MAX_LENGTH / 10
    ensures LengthShape(v + [c], |v| + 1) && Numeral((v + [c])[..|v| + 1]) == 10 * Numeral(v[..|v|]) + (c as int - '0' as int)
  {
    assert v[..|v|] == v && (v + [c])[..|v| + 1] == v + [c] && (v + [c])[|v| + 1..] == "";
    NumeralGrows(v, c);
  }

  /** What is taken has the shape of a length, and is taken for its number. */
  lemma {:induction false} TakenIsLength(q: Parser, v: string) returns (k: nat)
    requires q.hs.ContentLength? && v != "" && Reading(q, v).Some?
    ensures LengthShape(v, k) && !q.flags.contentLength && ReadAs(q, Reading(q, v).value, Numeral(v[..k]), k < |v|)
  {
    hide Reading, MatchValue, LengthShape, Numeral;
    var init, c := v[..|v| - 1], v[|v| - 1];
    assert v == init + [c];
    if init == "" {
      ReadingOne(q, c);
      ShapeFirst(c);
      assert v == [c] && v[..1] == v;
      k := 1;
    } else {
      ReadingMore(q, v);
      k := TakenIsLength(q, init);
      ShapeInside(init, k);
      LengthByte(Reading(q, init).value, c);
      if c == ' ' {
        ShapeSpaced(init, k);
      } else {
        assert k == |init|;
        ShapeDigit(init, c);
        k := |v|;
      }
    }
  }

  lemma ShapeInside(v: string, k: nat)
    requires LengthShape(v, k)
    ensures 0 < k <= |v|
  {
  }

  lemma ShapeLess(v: string, k: nat)
    requires LengthShape(v, k) && |v| > 1
    ensures var init, c := v[..|v| - 1], v[|v| - 1];
      if k < |v| then c == ' ' && LengthShape(init, k) && init[..k] == v[..k]
      else '0' <= c <= '9' && LengthShape(init, k - 1) && init[..k - 1] == init && Numeral(init) <= MAX_LENGTH / 10 && v[..k] == init + [c]
  {
    var init, c := v[..|v| - 1], v[|v| - 1];
    if k < |v| {
      assert v[k..][|v| - 1 - k] == c && init[k..] == v[k..][..|v| - 1 - k] && init[..k] == v[..k];
    } else {
      assert v[..k] == v && init + [c] == v && c == v[..k][k - 1];
      assert Digits(init) by { assert forall i | 0 <= i < |init| :: init[i] == v[..k][i]; }
      NumeralGrows(init, c);
      assert init[..k - 1] == init && init[k - 1..] == "";
    }
  }

  /** What has the shape of a length is taken, where no length has been taken before. */
  lemma {:induction false} LengthIsTaken(q: Parser, v: string, k: nat)
    requires q.hs.ContentLength? && LengthShape(v, k) && !q.flags.contentLength
    ensures Reading(q, v).Some?
    decreases |v|
  {
    hide Reading, MatchValue, LengthShape, Numeral;
    ShapeInside(v, k);
    if |v| == 1 {
      assert v == [v[0]];
      ShapeDigitFirst(v, k);
      ReadingOne(q, v[0]);
    } else {
      var init, c := v[..|v| - 1], v[|v| - 1];
      ShapeLess(v, k);
      LengthIsTaken(q, init, if k < |v| then k else k - 1);
      var j := TakenIsLength(q, init);
      ShapeUnique(init, j, if k < |v| then k else k - 1);
      ReadingMore(q, v);
      LengthByte(Reading(q, init).value, c);
    }
  }

  lemma ShapeDigitFirst(v: string, k: nat)
    requires LengthShape(v, k)
    ensures '0' <= v[0] <= '9'
  {
    assert v[0] == v[..k][0];
  }

  lemma ShapeAt(v: string, k: nat, i: nat)
    requires LengthShape(v, k) && i < |v|
    ensures if i < k then '0' <= v[i] <= '9' else v[i] == ' '
  {
    if i < k { assert v[i] == v[..k][i]; } else { assert v[i] == v[k..][i - k]; }
  }

  lemma ShapeUnique(v: string, j: nat, k: nat)
    requires LengthShape(v, j) && LengthShape(v, k)
    ensures j == k
  {
    hide Digits, Spaces, Numeral;
    if j < k { ShapeAt(v, k, j); ShapeAt(v, j, j); }
    if k < j { ShapeAt(v, j, k); ShapeAt(v, k, k); }
  }

  lemma TakenIff(q: Parser, v: string)
    requires q.hs.ContentLength? && v != ""
    ensures Reading(q, v).Some? <==> !q.flags.contentLength && IsLength(v)
    ensures Reading(q, v).Some? ==> forall k: nat | LengthShape(v, k) :: Reading(q, v).value.contentLength == Numeral(v[..k])
    ensures Reading(q, v).Some? ==> Reading(q, v).value.flags.contentLength
  {
    hide Reading, LengthShape, Numeral;
    if Reading(q, v).Some? {
      var j := TakenIsLength(q, v);
      ShapeInside(v, j);
      forall k: nat | LengthShape(v, k) ensures k == j { ShapeUnique(v, j, k); }
    } else if IsLength(v) && !q.flags.contentLength {
      var k: nat :| k <= |v| && LengthShape(v, k);
      LengthIsTaken(q, v, k);
    }
  }

  // ------------------------------------------------------------------ in a run

  lemma {:induction false} FoldStops(m: Machine, s: string)
    requires m.parser.st.Value? && PlainBytes(s) && m.parser.nread + |s| <= MAX_HEADER_SIZE && Fold(m.parser, s).None?
    ensures Run(m, s).Failed?
  {
    hide One, Run, MatchValue, Deliver, IsHeaderChar;
    if s != "" {
      var init, c := s[..|s| - 1], s[|s| - 1];
      assert s == init + [c] && PlainByte(c);
      if Fold(m.parser, init).None? {
        FoldStops(m, init);
        RunFails(m, init, c);
      } else {
        FoldRuns(m, init);
        var a := Fold(m.parser, init).value;
        RunOne(m, init, c);
        var n := Run(m, init).m;
        OneValue(n, c);
        MatchValueNread(a, c, n.parser.nread + 1);
        ValueByteFails(Counted(n.parser), c);
      }
    }
  }

  lemma ValueByteFails(p: Parser, c: char)
    requires p.st.Value? && c != CR && c != LF && MatchValue(p, c).Fail?
    ensures OnValue(p, c).Fail?
  {
    hide MatchValue;
  }

  /** A value the matcher does not take ends the run. */
  lemma ReadingStops(m: Machine, v: string)
    requires m.parser.st.DiscardWs? && PlainValue(v) && v != "" && m.parser.nread + |v| <= MAX_HEADER_SIZE
    requires Reading(m.parser, v).None?
    ensures Run(m, v).Failed?
  {
    hide One, Run, OnValueStart, Deliver, IsHeaderChar, Fold;
    var c := v[0];
    var n := m.parser.nread;
    assert PlainByte(c);
    StartNread(m.parser, c, n + 1);
    assert Counted(m.parser) == m.parser.(nread := n + 1);
    Empty(m);
    RunOne(m, "", c);
    assert "" + [c] == [c] && v == [c] + v[1..];
    RunJoin(m, [c], v[1..]);
    if OnValueStart(m.parser, c).Fail? {
      StartByteFails(m, c);
    } else {
      FirstValueByte(m, c);
      var a := OnValueStart(m.parser, c).parser;
      FoldNread(a, v[1..], n + 1);
      FoldStops(Machine(a.(nread := n + 1), Deliver(m.ctx, ValueData, [c])), v[1..]);
    }
  }

  lemma StartByteFails(m: Machine, c: char)
    requires m.parser.st.DiscardWs? && PlainByte(c) && c != ' ' && c != TAB && OnValueStart(Counted(m.parser), c).Fail?
    ensures One(m, c).Failed?
  {
    hide OnValueStart, IsHeaderChar;
  }

  /** A line named Content-Length, in any letter case, is taken exactly if it is the first such line and its value is a number of
      at most 2^64 - 7 in decimal digits, with nothing behind them but spaces. */
  lemma LengthLines(m: Machine, name: string, v: string)
    requires m.parser.st.FieldStart? && Ready(m.ctx) && TokenName(name) && LowerName(name) == CONTENT_LENGTH && PlainValue(v) && v != ""
    requires m.parser.nread + |HeaderText((name, v))| <= MAX_HEADER_SIZE
    ensures Run(m, HeaderText((name, v))).Done? <==> !m.parser.flags.contentLength && IsLength(v)
    ensures var r := Run(m, HeaderText((name, v)));
      r.Done? ==> r.m.parser.flags.contentLength && forall k: nat | LengthShape(v, k) :: r.m.parser.contentLength == Numeral(v[..k])
  {
    hide One, Run, OnFieldData, NameKnown, TokenName, LowerName, PlainValue, Reading, LengthShape, Numeral, Settle, IsLength, Deliver;
    var q := NamePart(m, name);
    LengthState(q, m.parser.te);
    var a := Machine(q, OnFieldData(m.ctx, name));
    ReadsRun(m, name + ": ", a);
    RunJoin(m, name + ": ", v);
    RunJoin(m, name + ": " + v, CRLF);
    assert HeaderText((name, v)) == name + ": " + v + CRLF;
    TakenIff(q, v);
    if Reading(q, v).None? {
      ReadingStops(a, v);
    } else {
      ReadingRuns(a, v);
      ValueLineEnds(Run(a, v).m);
    }
  }
}
