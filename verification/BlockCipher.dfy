/** The block cipher that YS_Sm4 and YS_Islam share, whatever their tables hold: key schedules, 32 rounds, ECB. */
module BlockCipher {
  import opened Octets

  /** The constants of one cipher. */
  datatype Tables = Tables(fk: seq<Word>, ck: seq<Word>, sbox: Octet -> Octet, tbox: Octet -> Word) {
    predicate Valid() { |fk| == 4 && |ck| == 32 }
  }

  /** Four words in flight. */
  datatype Quad = Quad(a: Word, b: Word, c: Word, d: Word) {
    function Turned(): Quad { Quad(d, c, b, a) }
  }

  type Keys = seq<Word>

  function Add(x: Word, y: Word): Word { x ^ y }

  lemma AddTwice(x: Word, y: Word)
    ensures Add(Add(x, y), y) == x
  {
  }

  lemma AddComm(x: Word, y: Word)
    ensures Add(x, y) == Add(y, x)
  {
  }

  lemma AddAssoc(x: Word, y: Word, z: Word)
    ensures Add(Add(x, y), z) == Add(x, Add(y, z))
  {
  }

  lemma AddTurned(x: Word, y: Word, z: Word, k: Word)
    ensures Add(Add(Add(x, y), z), k) == Add(Add(Add(z, y), x), k)
  {
    hide Add;
    AddAssoc(x, y, z);
    AddComm(y, z);
    AddComm(x, Add(y, z));
  }

  function Rol8(x: Word): Word { (x << 8) | (x >> 24) }

  function Rol13(x: Word): Word { (x << 13) | (x >> 19) }

  function Rol16(x: Word): Word { (x << 16) | (x >> 16) }

  function Rol23(x: Word): Word { (x << 23) | (x >> 9) }

  function Rol24(x: Word): Word { (x << 24) | (x >> 8) }

  /** What a round adds to its first word: four table words, one for each octet of x, lowest first. */
  function Mixed(t: Tables, x: Word): Word
  {
    Add(Add(Add(Rol8(t.tbox(Part(x, 3))), Rol16(t.tbox(Part(x, 2)))), Rol24(t.tbox(Part(x, 1)))), t.tbox(Part(x, 0)))
  }

  function Step(t: Tables, k: Word, s: Quad): Quad
  {
    Quad(s.b, s.c, s.d, Add(s.a, Mixed(t, Add(Add(Add(s.b, s.c), s.d), k))))
  }

  function Rounds(t: Tables, ks: Keys, s: Quad): Quad
  {
    if ks == [] then s else Rounds(t, ks[1..], Step(t, ks[0], s))
  }

  function Rev(ks: Keys): (r: Keys)
    ensures |r| == |ks|
  {
    if ks == [] then [] else Rev(ks[1..]) + [ks[0]]
  }

  lemma {:induction false} RevOfSum(a: Keys, b: Keys)
    ensures Rev(a + b) == Rev(b) + Rev(a)
  {
    if a == [] {
      assert a + b == b;
    } else {
      assert (a + b)[1..] == a[1..] + b;
      RevOfSum(a[1..], b);
    }
  }

  lemma {:induction false} RevOfRev(a: Keys)
    ensures Rev(Rev(a)) == a
  {
    if a != [] {
      RevOfSum(Rev(a[1..]), [a[0]]);
      RevOfRev(a[1..]);
    }
  }

  lemma {:induction false} RoundsSnoc(t: Tables, ks: Keys, k: Word, s: Quad)
    ensures Rounds(t, ks + [k], s) == Step(t, k, Rounds(t, ks, s))
  {
    hide Step;
    if ks == [] {
      assert [k][1..] == [];
      assert Rounds(t, [k], s) == Rounds(t, [], Step(t, k, s));
      assert ks + [k] == [k];
    } else {
      assert (ks + [k])[1..] == ks[1..] + [k];
      RoundsSnoc(t, ks[1..], k, Step(t, ks[0], s));
    }
  }

  /** The same key undoes a round on the turned state: the added part is a function of words that stay. */
  lemma StepBack(t: Tables, k: Word, s: Quad)
    ensures Step(t, k, Step(t, k, s).Turned()) == s.Turned()
  {
    hide Add, Mixed;
    AddTurned(s.b, s.c, s.d, k);
    AddTwice(s.a, Mixed(t, Add(Add(Add(s.b, s.c), s.d), k)));
  }

  /** The rounds with their keys in reverse order undo the rounds, whatever the tables and however many keys. */
  lemma {:induction false} RoundsBack(t: Tables, ks: Keys, s: Quad)
    ensures Rounds(t, Rev(ks), Rounds(t, ks, s).Turned()) == s.Turned()
  {
    hide Step;
    if ks != [] {
      var u := Step(t, ks[0], s);
      RoundsBack(t, ks[1..], u);
      RoundsSnoc(t, Rev(ks[1..]), ks[0], Rounds(t, ks, s).Turned());
      StepBack(t, ks[0], s);
    }
  }

  // ----- One block -----

  function Load(x: Octets): Quad
    requires |x| == 16
  {
    Quad(GetWord(x, 0), GetWord(x, 4), GetWord(x, 8), GetWord(x, 12))
  }

  function Store(s: Quad): (x: Octets)
    ensures |x| == 16
  {
    PutWord(s.a) + PutWord(s.b) + PutWord(s.c) + PutWord(s.d)
  }

  lemma LoadStore(s: Quad)
    ensures Load(Store(s)) == s
  {
    hide PutWord, Join4;
    GetPut(s.a);
    GetPut(s.b);
    GetPut(s.c);
    GetPut(s.d);
    var x := Store(s);
    Quarters(PutWord(s.a), PutWord(s.b), PutWord(s.c), PutWord(s.d));
    WordWithin(x, 0);
    WordWithin(x, 4);
    WordWithin(x, 8);
    WordWithin(x, 12);
  }

  lemma Quarters(a: Octets, b: Octets, c: Octets, d: Octets)
    requires |a| == |b| == |c| == |d| == 4
    ensures var x := a + b + c + d; x[0..4] == a && x[4..8] == b && x[8..12] == c && x[12..16] == d
  {
  }

  lemma WordWithin(x: Octets, p: nat)
    requires p + 4 <= |x|
    ensures GetWord(x, p) == GetWord(x[p..p + 4], 0)
  {
    hide Join4;
  }

  lemma StoreLoad(x: Octets)
    requires |x| == 16
    ensures Store(Load(x)) == x
  {
    hide PutWord, GetWord;
    PutGet(x, 0);
    PutGet(x, 4);
    PutGet(x, 8);
    PutGet(x, 12);
    assert x == x[0..4] + x[4..8] + x[8..12] + x[12..16];
  }

  function Block(t: Tables, ks: Keys, x: Octets): (y: Octets)
    requires |x| == 16
    ensures |y| == 16
  {
    Store(Rounds(t, ks, Load(x)).Turned())
  }

  lemma {:induction false} BlockBack(t: Tables, ks: Keys, x: Octets)
    requires |x| == 16
    ensures Block(t, Rev(ks), Block(t, ks, x)) == x
  {
    hide Rounds, Load, Store;
    var s := Load(x);
    LoadStore(Rounds(t, ks, s).Turned());
    RoundsBack(t, ks, s);
    StoreLoad(x);
  }

  // ----- Whole blocks in a row -----

  function Ecb(t: Tables, ks: Keys, x: Octets): (y: Octets)
    ensures |y| == |x| / 16 * 16
  {
    if |x| < 16 then [] else Block(t, ks, x[..16]) + Ecb(t, ks, x[16..])
  }

  lemma {:induction false} EcbSnoc(t: Tables, ks: Keys, x: Octets, b: Octets)
    requires |x| % 16 == 0 && |b| == 16
    ensures Ecb(t, ks, x + b) == Ecb(t, ks, x) + Block(t, ks, b)
  {
    hide Block;
    if x == [] {
      assert x + b == b && b[..16] == b;
      assert Ecb(t, ks, b[16..]) == [];
    } else {
      assert (x + b)[..16] == x[..16] && (x + b)[16..] == x[16..] + b;
      EcbSnoc(t, ks, x[16..], b);
    }
  }

  /** Decryption undoes encryption over any number of blocks. */
  lemma {:induction false} EcbBack(t: Tables, ks: Keys, x: Octets)
    requires |x| % 16 == 0
    ensures Ecb(t, Rev(ks), Ecb(t, ks, x)) == x
  {
    hide Block, Rev;
    if x != [] {
      var b := Block(t, ks, x[..16]);
      var rest := Ecb(t, ks, x[16..]);
      assert (b + rest)[..16] == b && (b + rest)[16..] == rest;
      BlockBack(t, ks, x[..16]);
      EcbBack(t, ks, x[16..]);
      assert x == x[..16] + x[16..];
    }
  }

  // ----- The key schedule -----

  function Spread(x: Word): Word { Add(Add(x, Rol13(x)), Rol23(x)) }

  function Substituted(t: Tables, x: Word): Word
  {
    Add(Add(Add((t.sbox(Part(x, 0)) as Word) << 24, (t.sbox(Part(x, 1)) as Word) << 16), (t.sbox(Part(x, 2)) as Word) << 8),
        t.sbox(Part(x, 3)) as Word)
  }

  function NextKey(t: Tables, i: nat, s: Quad): Word
    requires t.Valid() && i < 32
  {
    Add(s.a, Spread(Substituted(t, Add(Add(Add(s.b, s.c), s.d), t.ck[i]))))
  }

  /** The keys from round i on. */
  function KeysFrom(t: Tables, i: nat, s: Quad): (ks: Keys)
    requires t.Valid() && i <= 32
    ensures |ks| == 32 - i
    decreases 32 - i
  {
    if i == 32 then [] else
      var k := NextKey(t, i, s);
      [k] + KeysFrom(t, i + 1, Quad(s.b, s.c, s.d, k))
  }

  function FirstQuad(t: Tables, key: Octets): Quad
    requires t.Valid() && |key| == 16
  {
    Quad(Add(GetWord(key, 0), t.fk[0]), Add(GetWord(key, 4), t.fk[1]), Add(GetWord(key, 8), t.fk[2]), Add(GetWord(key, 12), t.fk[3]))
  }

  function RoundKeys(t: Tables, key: Octets): (ks: Keys)
    requires t.Valid() && |key| == 16
    ensures |ks| == 32
  {
    KeysFrom(t, 0, FirstQuad(t, key))
  }

  lemma KeysStep(t: Tables, i: nat, s: Quad)
    requires t.Valid() && i < 32
    ensures var k := NextKey(t, i, s); KeysFrom(t, i, s) == [k] + KeysFrom(t, i + 1, Quad(s.b, s.c, s.d, k))
  {
    hide NextKey;
  }

  method SetEncryptKey(t: Tables, rk: array<Word>, key: Octets)
    requires t.Valid() && rk.Length == 32 && |key| == 16
    modifies rk
    ensures rk[..] == RoundKeys(t, key)
  {
    hide NextKey, FirstQuad, KeysFrom;
    var s := FirstQuad(t, key);
    var x0, x1, x2, x3 := s.a, s.b, s.c, s.d;
    for i := 0 to 32
      invariant RoundKeys(t, key) == rk[..i] + KeysFrom(t, i, Quad(x0, x1, x2, x3))
    {
      var x4 := NextKey(t, i, Quad(x0, x1, x2, x3));
      KeysStep(t, i, Quad(x0, x1, x2, x3));
      rk[i] := x4;
      x0, x1, x2, x3 := x1, x2, x3, x4;
      assert rk[..i + 1] == rk[..i] + [x4];
    }
  }

  method SetDecryptKey(t: Tables, rk: array<Word>, key: Octets)
    requires t.Valid() && rk.Length == 32 && |key| == 16
    modifies rk
    ensures rk[..] == Rev(RoundKeys(t, key))
  {
    hide NextKey, FirstQuad, KeysFrom;
    var s := FirstQuad(t, key);
    var x0, x1, x2, x3 := s.a, s.b, s.c, s.d;
    ghost var made: Keys := [];
    for i := 0 to 32
      invariant |made| == i && rk[32 - i..] == Rev(made)
      invariant RoundKeys(t, key) == made + KeysFrom(t, i, Quad(x0, x1, x2, x3))
    {
      var x4 := NextKey(t, i, Quad(x0, x1, x2, x3));
      KeysStep(t, i, Quad(x0, x1, x2, x3));
      rk[31 - i] := x4;
      x0, x1, x2, x3 := x1, x2, x3, x4;
      assert rk[31 - i..] == [x4] + rk[32 - i..];
      RevOfSum(made, [x4]);
      assert Rev([x4]) == [x4];
      made := made + [x4];
    }
    assert made == RoundKeys(t, key);
    assert rk[0..] == rk[..];
  }

  // ----- Blocks in arrays; the output may be the input -----

  function Shifted(x: Word): Word { x >> 8 }

  /** One round: the word for the next register, from four table words taken off the mixed word lowest octet first. */
  method Round(t: Tables, x0: Word, x1: Word, x2: Word, x3: Word, k: Word) returns (x4: Word)
    ensures Quad(x1, x2, x3, x4) == Step(t, k, Quad(x0, x1, x2, x3))
  {
    hide Add, Rol8, Rol16, Rol24, Low, Shifted, Part;
    var sum := x0;
    x4 := Add(Add(Add(x1, x2), x3), k);
    Peeled(x4);
    var t0 := Rol8(t.tbox(Low(x4)));
    x4 := Shifted(x4);
    sum := Add(sum, t0);
    var t1 := Rol16(t.tbox(Low(x4)));
    x4 := Shifted(x4);
    sum := Add(sum, t1);
    var t2 := Rol24(t.tbox(Low(x4)));
    x4 := Shifted(x4);
    sum := Add(sum, t2);
    var t3 := t.tbox(Low(x4));
    x4 := Add(sum, t3);
    AddAssoc(x0, t0, t1);
    AddAssoc(x0, Add(t0, t1), t2);
    AddAssoc(x0, Add(Add(t0, t1), t2), t3);
  }

  lemma Peeled(x: Word)
    ensures Part(x, 3) == Low(x) && Part(x, 2) == Low(Shifted(x))
    ensures Part(x, 1) == Low(Shifted(Shifted(x))) && Part(x, 0) == Low(Shifted(Shifted(Shifted(x))))
  {
  }

  method EncryptBlock(t: Tables, inp: array<Octet>, out: array<Octet>, p: nat, rk: Keys)
    requires |rk| == 32 && p + 16 <= inp.Length && p + 16 <= out.Length
    modifies out
    ensures out[..] == old(out[..p]) + Block(t, rk, old(inp[p..p + 16])) + old(out[p + 16..])
  {
    hide Step, GetWord, PutWord, Rounds, Load;
    ghost var x := inp[p..p + 16];
    LoadAt(inp[..], p);
    var x0 := GetWord(inp[..], p);
    var x1 := GetWord(inp[..], p + 4);
    var x2 := GetWord(inp[..], p + 8);
    var x3 := GetWord(inp[..], p + 12);
    assert inp[..][p..p + 16] == x && rk[0..] == rk;
    for i := 0 to 32
      invariant out[..] == old(out[..])
      invariant Rounds(t, rk, Load(x)) == Rounds(t, rk[i..], Quad(x0, x1, x2, x3))
    {
      RoundsStep(t, rk, i, Quad(x0, x1, x2, x3));
      var x4 := Round(t, x0, x1, x2, x3, rk[i]);
      x0, x1, x2, x3 := x1, x2, x3, x4;
    }
    RoundsStep(t, rk, 32, Quad(x0, x1, x2, x3));
    assert Block(t, rk, x) == Store(Quad(x3, x2, x1, x0));
    Copy(PutWord(x3), out, p);
    Copy(PutWord(x2), out, p + 4);
    Copy(PutWord(x1), out, p + 8);
    Copy(PutWord(x0), out, p + 12);
    FourWords(old(out[..]), p, x3, x2, x1, x0);
  }

  lemma FourWords(s: Octets, p: nat, a: Word, b: Word, c: Word, d: Word)
    requires p + 16 <= |s|
    ensures var s1 := s[..p] + PutWord(a) + s[p + 4..];
      var s2 := s1[..p + 4] + PutWord(b) + s1[p + 8..];
      var s3 := s2[..p + 8] + PutWord(c) + s2[p + 12..];
      s3[..p + 12] + PutWord(d) + s3[p + 16..] == s[..p] + Store(Quad(a, b, c, d)) + s[p + 16..]
  {
    hide PutWord;
    var s1 := s[..p] + PutWord(a) + s[p + 4..];
    var s2 := s1[..p + 4] + PutWord(b) + s1[p + 8..];
    var s3 := s2[..p + 8] + PutWord(c) + s2[p + 12..];
    assert s1[..p + 4] == s[..p] + PutWord(a) && s1[p + 8..] == s[p + 8..];
    assert s2[..p + 8] == s[..p] + PutWord(a) + PutWord(b) && s2[p + 12..] == s[p + 12..];
    assert s3[..p + 12] == s[..p] + PutWord(a) + PutWord(b) + PutWord(c) && s3[p + 16..] == s[p + 16..];
  }

  lemma RoundsStep(t: Tables, ks: Keys, i: nat, s: Quad)
    requires i <= |ks|
    ensures Rounds(t, ks[i..], s) == if i == |ks| then s else Rounds(t, ks[i + 1..], Step(t, ks[i], s))
  {
    hide Step;
    if i < |ks| {
      assert ks[i..][1..] == ks[i + 1..];
    }
  }

  lemma LoadAt(x: Octets, p: nat)
    requires p + 16 <= |x|
    ensures Load(x[p..p + 16]) == Quad(GetWord(x, p), GetWord(x, p + 4), GetWord(x, p + 8), GetWord(x, p + 12))
  {
    hide Join4;
  }

  method EcbBlocks(t: Tables, inp: array<Octet>, out: array<Octet>, blocks: nat, rk: Keys)
    requires |rk| == 32 && 16 * blocks <= inp.Length && 16 * blocks <= out.Length
    modifies out
    ensures out[..] == Ecb(t, rk, old(inp[..16 * blocks])) + old(out[16 * blocks..])
  {
    hide Block, Ecb;
    ghost var n := 16 * blocks;
    ghost var x := inp[..n];
    ghost var was := out[..];
    EcbNone(t, rk);
    var p, left := 0, blocks;
    while left > 0
      invariant p + 16 * left == n && p % 16 == 0
      invariant inp[p..n] == x[p..]
      invariant out[..] == Ecb(t, rk, x[..p]) + was[p..]
    {
      ghost var from := inp[..];
      ghost var b := x[p..p + 16];
      assert inp[p..p + 16] == b by { assert inp[p..p + 16] == inp[p..n][..16]; }
      Spliced(Ecb(t, rk, x[..p]), Block(t, rk, b), was, p);
      EcbSnoc(t, rk, x[..p], b);
      assert x[..p + 16] == x[..p] + b;
      EncryptBlock(t, inp, out, p, rk);
      assert inp[..][p + 16..] == from[p + 16..];
      assert inp[p + 16..n] == from[p..n][16..];
      left := left - 1;
      p := p + 16;
    }
    assert x[..n] == x;
  }

  lemma Spliced(done: Octets, b: Octets, was: Octets, p: nat)
    requires |done| == p && |b| == 16 && p + 16 <= |was|
    ensures var s := done + was[p..]; s[..p] + b + s[p + 16..] == done + b + was[p + 16..]
  {
  }

  lemma EcbNone(t: Tables, ks: Keys)
    ensures Ecb(t, ks, []) == []
  {
  }

  /** Nothing is written unless the length is a whole number of blocks. */
  method EcbEncrypt(t: Tables, data: array<Octet>, len: nat, key: Octets, cipher: array<Octet>)
    requires t.Valid() && |key| == 16 && len < 0x1_0000_0000 && len <= data.Length && len <= cipher.Length
    modifies cipher
    ensures cipher[..] == if len % 16 != 0 then old(cipher[..]) else
                            Ecb(t, RoundKeys(t, key), old(data[..len])) + old(cipher[len..])
  {
    if len % 16 != 0 {
      return;
    }
    var rk := new Word[32];
    SetEncryptKey(t, rk, key);
    EcbBlocks(t, data, cipher, len / 16, rk[..]);
  }

  method EcbDecrypt(t: Tables, cipher: array<Octet>, len: nat, key: Octets, data: array<Octet>)
    requires t.Valid() && |key| == 16 && len < 0x1_0000_0000 && len <= data.Length && len <= cipher.Length
    modifies data
    ensures data[..] == if len % 16 != 0 then old(data[..]) else
                          Ecb(t, Rev(RoundKeys(t, key)), old(cipher[..len])) + old(data[len..])
  {
    if len % 16 != 0 {
      return;
    }
    var rk := new Word[32];
    SetDecryptKey(t, rk, key);
    EcbBlocks(t, cipher, data, len / 16, rk[..]);
  }

  /** Both directions: each of the two undoes the other, for every key. */
  lemma {:induction false} EcbRoundTrip(t: Tables, key: Octets, x: Octets)
    requires t.Valid() && |key| == 16 && |x| % 16 == 0
    ensures Ecb(t, Rev(RoundKeys(t, key)), Ecb(t, RoundKeys(t, key), x)) == x
    ensures Ecb(t, RoundKeys(t, key), Ecb(t, Rev(RoundKeys(t, key)), x)) == x
  {
    hide Ecb, Rev;
    var ks := RoundKeys(t, key);
    EcbBack(t, ks, x);
    EcbBack(t, Rev(ks), x);
    RevOfRev(ks);
  }
}
