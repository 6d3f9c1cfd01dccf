/** The cipher of GB/T 32907 (SM4) as the standard defines it, apart from the source's table look-ups, and the proof that
    the source's rounds and key schedules compute it. */
module Sm4Standard {
  import opened Octets
  import opened BlockCipher

  type Box = Octet -> Octet

  function Together(a: Octet, b: Octet, c: Octet, d: Octet): Word
  {
    ((a as Word) << 24) | ((b as Word) << 16) | ((c as Word) << 8) | (d as Word)
  }

  /** Octet i of a word, the highest first. */
  function Cut(x: Word, i: nat): Octet
  {
    (if i == 0 then x >> 24 else if i == 1 then (x >> 16) & 0xFF else if i == 2 then (x >> 8) & 0xFF else x & 0xFF) as Octet
  }

  /** Each octet substituted in its own place. */
  function Tau(s: Box, x: Word): Word { Together(s(Cut(x, 0)), s(Cut(x, 1)), s(Cut(x, 2)), s(Cut(x, 3))) }

  function Turn2(w: Word): Word { w.RotateLeft(2) }

  function Turn10(w: Word): Word { w.RotateLeft(10) }

  function Turn13(w: Word): Word { w.RotateLeft(13) }

  function Turn18(w: Word): Word { w.RotateLeft(18) }

  function Turn23(w: Word): Word { w.RotateLeft(23) }

  function Turn24(w: Word): Word { w.RotateLeft(24) }

  /** The linear transform of the rounds. */
  function L(w: Word): Word
  {
    Add(Add(Add(Add(w, Turn2(w)), Turn10(w)), Turn18(w)), Turn24(w))
  }

  /** The linear transform of the key schedule. */
  function LKey(w: Word): Word { Add(Add(w, Turn13(w)), Turn23(w)) }

  /** An octet in the highest place of a word. */
  function High(o: Octet): Word { (o as Word) << 24 }

  /** The table holds the linear transform of each substituted octet in the highest place. */
  ghost predicate Matched(t: Tables, s: Box) { forall b: Octet :: t.tbox(b) == L(High(s(b))) }

  // ----- One round -----

  lemma AddIs(a: Word, b: Word)
    ensures Add(a, b) == a ^ b
  {
  }

  lemma Turn2Adds(a: Word, b: Word)
    ensures Turn2(Add(a, b)) == Add(Turn2(a), Turn2(b))
  {
    assert Turn2(a ^ b) == Turn2(a) ^ Turn2(b);
    AddIs(a, b);
    AddIs(Turn2(a), Turn2(b));
    hide Add, Turn2;
  }

  lemma Turn10Adds(a: Word, b: Word)
    ensures Turn10(Add(a, b)) == Add(Turn10(a), Turn10(b))
  {
    assert Turn10(a ^ b) == Turn10(a) ^ Turn10(b);
    AddIs(a, b);
    AddIs(Turn10(a), Turn10(b));
    hide Add, Turn10;
  }

  lemma Turn18Adds(a: Word, b: Word)
    ensures Turn18(Add(a, b)) == Add(Turn18(a), Turn18(b))
  {
    assert Turn18(a ^ b) == Turn18(a) ^ Turn18(b);
    AddIs(a, b);
    AddIs(Turn18(a), Turn18(b));
    hide Add, Turn18;
  }

  lemma Turn24Adds(a: Word, b: Word)
    ensures Turn24(Add(a, b)) == Add(Turn24(a), Turn24(b))
  {
    assert Turn24(a ^ b) == Turn24(a) ^ Turn24(b);
    AddIs(a, b);
    AddIs(Turn24(a), Turn24(b));
    hide Add, Turn24;
  }

  lemma Interchange(a: Word, b: Word, c: Word, d: Word)
    ensures Add(Add(a, b), Add(c, d)) == Add(Add(a, c), Add(b, d))
  {
    hide Add;
    AddAssoc(a, b, Add(c, d));
    AddAssoc(b, c, d);
    AddComm(b, c);
    AddAssoc(c, b, d);
    AddAssoc(a, c, Add(b, d));
  }

  /** The transform is linear. */
  lemma LAdds(a: Word, b: Word)
    ensures L(Add(a, b)) == Add(L(a), L(b))
  {
    Turn2Adds(a, b);
    Turn10Adds(a, b);
    Turn18Adds(a, b);
    Turn24Adds(a, b);
    hide Add, Turn2, Turn10, Turn18, Turn24;
    SumsAdd(a, b, Turn2(a), Turn2(b), Turn10(a), Turn10(b), Turn18(a), Turn18(b),
            Turn24(a), Turn24(b));
  }

  lemma SumsAdd(a0: Word, b0: Word, a1: Word, b1: Word, a2: Word, b2: Word, a3: Word, b3: Word, a4: Word, b4: Word)
    ensures Add(Add(Add(Add(Add(a0, b0), Add(a1, b1)), Add(a2, b2)), Add(a3, b3)), Add(a4, b4)) ==
      Add(Add(Add(Add(Add(a0, a1), a2), a3), a4), Add(Add(Add(Add(b0, b1), b2), b3), b4))
  {
    hide Add;
    var a01, b01 := Add(a0, a1), Add(b0, b1);
    Interchange(a0, b0, a1, b1);
    Interchange(a01, b01, a2, b2);
    Interchange(Add(a01, a2), Add(b01, b2), a3, b3);
    Interchange(Add(Add(a01, a2), a3), Add(Add(b01, b2), b3), a4, b4);
  }

  lemma LTurns(o: Octet)
    ensures L(o as Word) == Rol8(L(High(o)))
    ensures L((o as Word) << 8) == Rol16(L(High(o)))
    ensures L((o as Word) << 16) == Rol24(L(High(o)))
  {
  }

  /** Four octets, each in its place. */
  function Placed(a: Octet, b: Octet, c: Octet, d: Octet): Word
  {
    Add(Add(Add(d as Word, (c as Word) << 8), (b as Word) << 16), (a as Word) << 24)
  }

  lemma TauIs(s: Box, x: Word)
    ensures Tau(s, x) == Placed(s(Part(x, 0)), s(Part(x, 1)), s(Part(x, 2)), s(Part(x, 3)))
  {
    CutsAre(x);
    hide Part, Cut, Together, Placed;
    OrIsAdd(s(Part(x, 0)), s(Part(x, 1)), s(Part(x, 2)), s(Part(x, 3)));
  }

  lemma CutsAre(x: Word)
    ensures Part(x, 0) == Cut(x, 0) && Part(x, 1) == Cut(x, 1) && Part(x, 2) == Cut(x, 2) && Part(x, 3) == Cut(x, 3)
  {
  }

  lemma OrIsAdd(a: Octet, b: Octet, c: Octet, d: Octet)
    ensures Together(a, b, c, d) == Placed(a, b, c, d)
  {
  }

  lemma LOfPlaced(a: Octet, b: Octet, c: Octet, d: Octet)
    ensures L(Placed(a, b, c, d)) ==
      Add(Add(Add(Rol8(L(High(d))), Rol16(L(High(c)))), Rol24(L(High(b)))), L(High(a)))
  {
    LTurns(b);
    LTurns(c);
    LTurns(d);
    hide L, Add, Rol8, Rol16, Rol24;
    LAdds(Add(Add(d as Word, (c as Word) << 8), (b as Word) << 16), (a as Word) << 24);
    LAdds(Add(d as Word, (c as Word) << 8), (b as Word) << 16);
    LAdds(d as Word, (c as Word) << 8);
  }

  /** What a round adds is the linear transform of the substituted word. */
  lemma RoundAdds(t: Tables, s: Box, x: Word)
    requires Matched(t, s)
    ensures Mixed(t, x) == L(Tau(s, x))
  {
    var a, b, c, d := s(Part(x, 0)), s(Part(x, 1)), s(Part(x, 2)), s(Part(x, 3));
    TableAt(t, s, Part(x, 0));
    TableAt(t, s, Part(x, 1));
    TableAt(t, s, Part(x, 2));
    TableAt(t, s, Part(x, 3));
    TauIs(s, x);
    hide L, Add, Rol8, Rol16, Rol24, Part, Placed, Tau, Matched, High;
    LOfPlaced(a, b, c, d);
  }

  lemma TableAt(t: Tables, s: Box, b: Octet)
    requires Matched(t, s)
    ensures t.tbox(b) == L(High(s(b)))
  {
  }

  lemma KeyAdds(t: Tables, x: Word)
    ensures Spread(Substituted(t, x)) == LKey(Tau(t.sbox, x))
  {
    TauIs(t.sbox, x);
    SubstitutedIs(t, x);
    SpreadIs(Tau(t.sbox, x));
  }

  lemma SubstitutedIs(t: Tables, x: Word)
    ensures Substituted(t, x) == Placed(t.sbox(Part(x, 0)), t.sbox(Part(x, 1)), t.sbox(Part(x, 2)), t.sbox(Part(x, 3)))
  {
    hide Part;
    AnyOrder(t.sbox(Part(x, 0)), t.sbox(Part(x, 1)), t.sbox(Part(x, 2)), t.sbox(Part(x, 3)));
  }

  lemma AnyOrder(a: Octet, b: Octet, c: Octet, d: Octet)
    ensures Placed(a, b, c, d) == Add(Add(Add((a as Word) << 24, (b as Word) << 16), (c as Word) << 8), d as Word)
  {
    hide Add;
    Backwards(d as Word, (c as Word) << 8, (b as Word) << 16, (a as Word) << 24);
  }

  lemma Backwards(a: Word, b: Word, c: Word, d: Word)
    ensures Add(Add(Add(a, b), c), d) == Add(Add(Add(d, c), b), a)
  {
    hide Add;
    AddComm(Add(Add(a, b), c), d);
    AddComm(Add(a, b), c);
    AddComm(a, b);
    AddAssoc(d, c, Add(b, a));
    AddAssoc(Add(d, c), b, a);
  }

  lemma SpreadIs(w: Word)
    ensures Spread(w) == LKey(w)
  {
    assert Rol13(w) == Turn13(w) && Rol23(w) == Turn23(w);
    hide Add, Rol13, Rol23, Turn13, Turn23;
  }

  // ----- The cipher -----

  /** The words X0, X1, ... of a block under given round keys. */
  function X(s: Box, ks: Keys, x: Quad, i: nat): Word
    requires i < |ks| + 4
  {
    if i == 0 then x.a else if i == 1 then x.b else if i == 2 then x.c else if i == 3 then x.d
    else Add(X(s, ks, x, i - 4), L(Tau(s, Add(Add(Add(X(s, ks, x, i - 3), X(s, ks, x, i - 2)), X(s, ks, x, i - 1)), ks[i - 4]))))
  }

  /** The words K0, K1, ... of the key schedule. */
  function K(t: Tables, k: Quad, i: nat): Word
    requires t.Valid() && i < 36
  {
    if i == 0 then k.a else if i == 1 then k.b else if i == 2 then k.c else if i == 3 then k.d
    else Add(K(t, k, i - 4), LKey(Tau(t.sbox, Add(Add(Add(K(t, k, i - 3), K(t, k, i - 2)), K(t, k, i - 1)), t.ck[i - 4]))))
  }

  lemma XStep(t: Tables, s: Box, ks: Keys, x: Quad, i: nat)
    requires Matched(t, s) && i < |ks|
    ensures Step(t, ks[i], XQuad(s, ks, x, i)) == XQuad(s, ks, x, i + 1)
  {
    var q := XQuad(s, ks, x, i);
    RoundAdds(t, s, Add(Add(Add(q.b, q.c), q.d), ks[i]));
    hide L, Tau, Mixed, Add;
    assert X(s, ks, x, i + 4) == Add(q.a, L(Tau(s, Add(Add(Add(q.b, q.c), q.d), ks[i]))));
  }

  function XQuad(s: Box, ks: Keys, x: Quad, i: nat): Quad
    requires i <= |ks|
  {
    Quad(X(s, ks, x, i), X(s, ks, x, i + 1), X(s, ks, x, i + 2), X(s, ks, x, i + 3))
  }

  lemma {:induction false} RoundsAre(t: Tables, s: Box, ks: Keys, x: Quad, i: nat)
    requires Matched(t, s) && i <= |ks|
    ensures Rounds(t, ks[..i], x) == XQuad(s, ks, x, i)
  {
    if i > 0 {
      RoundsAre(t, s, ks, x, i - 1);
      RoundsSnoc(t, ks[..i - 1], ks[i - 1], x);
      assert ks[..i] == ks[..i - 1] + [ks[i - 1]];
      hide Rounds, Step, XQuad;
      XStep(t, s, ks, x, i - 1);
    }
  }

  function KQuad(t: Tables, k: Quad, i: nat): Quad
    requires t.Valid() && i <= 32
  {
    Quad(K(t, k, i), K(t, k, i + 1), K(t, k, i + 2), K(t, k, i + 3))
  }

  lemma KStep(t: Tables, k: Quad, i: nat)
    requires t.Valid() && i < 32
    ensures NextKey(t, i, KQuad(t, k, i)) == K(t, k, i + 4)
  {
    var q := KQuad(t, k, i);
    KeyAdds(t, Add(Add(Add(q.b, q.c), q.d), t.ck[i]));
    hide LKey, Tau, Spread, Substituted, Add;
    assert K(t, k, i + 4) == Add(q.a, LKey(Tau(t.sbox, Add(Add(Add(q.b, q.c), q.d), t.ck[i]))));
  }

  lemma {:induction false} KeysAre(t: Tables, k: Quad, i: nat, j: nat)
    requires t.Valid() && i <= 32 && j < 32 - i
    ensures KeysFrom(t, i, KQuad(t, k, i))[j] == K(t, k, i + j + 4)
    decreases 32 - i
  {
    KStep(t, k, i);
    KeysStep(t, i, KQuad(t, k, i));
    hide NextKey, KeysFrom, K;
    if j > 0 { KeysAre(t, k, i + 1, j - 1); }
  }

  /** A word of four octets, the highest first. */
  function WordAt(s: Octets, p: nat): Word
    requires p + 4 <= |s|
  {
    (s[p] as Word) * 0x100_0000 + (s[p + 1] as Word) * 0x1_0000 + (s[p + 2] as Word) * 0x100 + s[p + 3] as Word
  }

  /** `y` is the block `x` enciphered under `key`. */
  ghost predicate Enciphers(t: Tables, s: Box, key: Octets, x: Octets, y: Octets)
    requires t.Valid() && |key| == |x| == |y| == 16
  {
    var k := Quad(Add(WordAt(key, 0), t.fk[0]), Add(WordAt(key, 4), t.fk[1]), Add(WordAt(key, 8), t.fk[2]), Add(WordAt(key, 12), t.fk[3]));
    var ks := seq(32, i requires 0 <= i < 32 => K(t, k, i + 4));
    var q := Quad(WordAt(x, 0), WordAt(x, 4), WordAt(x, 8), WordAt(x, 12));
    && WordAt(y, 0) == X(s, ks, q, 35) && WordAt(y, 4) == X(s, ks, q, 34)
    && WordAt(y, 8) == X(s, ks, q, 33) && WordAt(y, 12) == X(s, ks, q, 32)
  }

  lemma WordsAre(s: Octets, p: nat)
    requires p + 4 <= |s|
    ensures WordAt(s, p) == GetWord(s, p)
  {
    FourOctets(s[p], s[p + 1], s[p + 2], s[p + 3]);
    hide Join4;
  }

  lemma FourOctets(a: Octet, b: Octet, c: Octet, d: Octet)
    ensures Join4(a, b, c, d) == (a as Word) * 0x100_0000 + (b as Word) * 0x1_0000 + (c as Word) * 0x100 + d as Word
  {
  }

  lemma LoadIs(x: Octets)
    requires |x| == 16
    ensures Load(x) == Quad(WordAt(x, 0), WordAt(x, 4), WordAt(x, 8), WordAt(x, 12))
  {
    hide WordAt, GetWord;
    WordsAre(x, 0);
    WordsAre(x, 4);
    WordsAre(x, 8);
    WordsAre(x, 12);
  }

  lemma FirstQuadIs(t: Tables, key: Octets)
    requires t.Valid() && |key| == 16
    ensures FirstQuad(t, key) ==
      Quad(Add(WordAt(key, 0), t.fk[0]), Add(WordAt(key, 4), t.fk[1]), Add(WordAt(key, 8), t.fk[2]), Add(WordAt(key, 12), t.fk[3]))
  {
    hide WordAt, GetWord, Add;
    WordsAre(key, 0);
    WordsAre(key, 4);
    WordsAre(key, 8);
    WordsAre(key, 12);
  }

  /** The source's block function under the source's key schedule is the standard's cipher, with the box `s` that its table
      is made from in the rounds and its own box in the key schedule. */
  lemma BlockIsStandard(t: Tables, s: Box, key: Octets, x: Octets)
    requires t.Valid() && |key| == |x| == 16 && Matched(t, s)
    ensures Enciphers(t, s, key, x, Block(t, RoundKeys(t, key), x))
  {
    hide WordAt, X, K, Rounds, KeysFrom, Matched, Load, Store, FirstQuad;
    var k := FirstQuad(t, key);
    FirstQuadIs(t, key);
    var ks := RoundKeys(t, key);
    assert KQuad(t, k, 0) == k by { KStarts(t, k); }
    forall i | 0 <= i < 32
      ensures ks[i] == K(t, k, i + 4)
    {
      KeysAre(t, k, 0, i);
    }
    assert ks == seq(32, i requires 0 <= i < 32 => K(t, k, i + 4));
    LoadIs(x);
    RoundsAre(t, s, ks, Load(x), 32);
    assert ks[..32] == ks;
    var y := Block(t, ks, x);
    LoadIs(y);
    LoadStore(Rounds(t, ks, Load(x)).Turned());
  }

  lemma KStarts(t: Tables, k: Quad)
    requires t.Valid()
    ensures KQuad(t, k, 0) == k
  {
  }
}
