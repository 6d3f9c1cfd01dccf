/** The format word of a symbol: five bits that name its error correction level and mask, with ten bits of check. */
module QrFormat {

  type Word = bv16

  const GENERATOR: Word := 0x537
  const PATTERN: Word := 0x5412

  // ----- What a reader does (section 7.9.1 of ISO/IEC 18004:2015) -----

  function Xor(a: Word, b: Word): Word { a ^ b }

  function Flip(c: Word, on: bool, g: Word): Word { if on then Xor(c, g) else c }

  /** A step of long division: the generator, shifted, cancels the bit on top. */
  function Cancel14(c: Word): Word { Flip(c, Bit14(c), 0x5370) }

  predicate Bit14(c: Word) { c & 0x4000 != 0 }

  function Cancel13(c: Word): Word { Flip(c, Bit13(c), 0x29b8) }

  predicate Bit13(c: Word) { c & 0x2000 != 0 }

  function Cancel12(c: Word): Word { Flip(c, Bit12(c), 0x14dc) }

  predicate Bit12(c: Word) { c & 0x1000 != 0 }

  function Cancel11(c: Word): Word { Flip(c, Bit11(c), 0xa6e) }

  predicate Bit11(c: Word) { c & 0x800 != 0 }

  function Cancel10(c: Word): Word { Flip(c, Bit10(c), 0x537) }

  predicate Bit10(c: Word) { c & 0x400 != 0 }

  /** Long division of a polynomial of degree 14 by the generator: the rest. */
  function Rest(c: Word): Word { Cancel10(Cancel11(Cancel12(Cancel13(Cancel14(c))))) }

  /** The word names the level and mask: unmasked, it is a multiple of the generator with the five data bits on top. */
  predicate Names(bits: Word, level: nat, mask: nat)
    requires level < 4 && mask < 8
  {
    var code := bits ^ PATTERN;
    code < 0x8000 && Rest(code) == 0 && code >> 10 == Data(level, mask)
  }

  function Data(level: nat, mask: nat): Word
    requires level < 4 && mask < 8
  {
    ((level as Word) << 3) | (mask as Word)
  }

  lemma NamesOnce(bits: Word, l: nat, m: nat, l2: nat, m2: nat)
    requires l < 4 && m < 8 && l2 < 4 && m2 < 8 && Names(bits, l, m) && Names(bits, l2, m2)
    ensures l == l2 && m == m2
  {
    DataTells(l, m);
    DataTells(l2, m2);
  }

  lemma DataTells(l: nat, m: nat)
    requires l < 4 && m < 8
    ensures Data(l, m) < 32 && (Data(l, m) >> 3) as nat == l && (Data(l, m) & 7) as nat == m
  {
    if l == 0 {} else if l == 1 {} else if l == 2 {} else {}
    if m == 0 {} else if m == 1 {} else if m == 2 {} else if m == 3 {} else if m == 4 {} else if m == 5 {} else if m == 6 {} else {}
  }

  // ----- What the source does -----

  function Turned(rem: Word): Word { (rem << 1) ^ ((rem >> 9) * GENERATOR) }

  function TurnedTimes(rem: Word, n: nat): Word { if n == 0 then rem else Turned(TurnedTimes(rem, n - 1)) }

  lemma CheckBits(data: Word)
    requires data < 32
    ensures var rem := TurnedTimes(data, 10); rem < 1024 && Rest((data << 10) | rem) == 0
  {
    var r1 := Turned(data);
    var r2 := Turned(r1);
    var r3 := Turned(r2);
    var r4 := Turned(r3);
    var r5 := Turned(r4);
    var r6 := Turned(r5);
    var r7 := Turned(r6);
    var r8 := Turned(r7);
    var r9 := Turned(r8);
    assert TurnedTimes(data, 1) == r1 && TurnedTimes(data, 2) == r2 && TurnedTimes(data, 3) == r3 && TurnedTimes(data, 4) == r4;
    assert TurnedTimes(data, 5) == r5 && TurnedTimes(data, 6) == r6 && TurnedTimes(data, 7) == r7 && TurnedTimes(data, 8) == r8;
    assert TurnedTimes(data, 9) == r9 && TurnedTimes(data, 10) == Turned(r9);
  }

  lemma Unmasked(data: Word, rem: Word)
    requires data < 32 && rem < 1024
    ensures var bits := ((data << 10) | rem) ^ PATTERN;
      bits ^ PATTERN == (data << 10) | rem && bits < 0x8000 && (bits ^ PATTERN) >> 10 == data && bits ^ PATTERN < 0x8000
  {
  }

  method FormatBits(level: nat, mask: nat) returns (bits: Word)
    requires level < 4 && mask < 8
    ensures Names(bits, level, mask) && bits >> 15 == 0
  {
    DataTells(level, mask);
    hide Rest, Turned, Data;
    var data := Data(level, mask);
    var rem := data;
    for i := 0 to 10
      invariant rem == TurnedTimes(data, i)
    {
      rem := Turned(rem);
    }
    CheckBits(data);
    Unmasked(data, rem);
    bits := ((data << 10) | rem) ^ PATTERN;
    Small(bits);
  }

  lemma Small(bits: Word)
    requires bits < 0x8000
    ensures bits >> 15 == 0
  {
  }

  /** getBit. */
  function BitOf(x: Word, i: nat): bool
    requires i < 15
  {
    (x >> i) & 1 != 0
  }

  function WordOf(bits: Word): (word: seq<bool>)
    ensures |word| == 15
  {
    seq(15, i requires 0 <= i < 15 => BitOf(bits, i))
  }

  function If(b: bool, w: Word): Word { if b then w else 0 }

  function Four(a: Word, b: Word, c: Word, d: Word): Word { a | b | c | d }

  /** The number that modules 0 to 14 of the format information stand for, module 0 for its lowest bit. */
  function Assembled(m: seq<bool>): Word
    requires |m| == 15
  {
    Four(Four(If(m[0], 0x1), If(m[1], 0x2), If(m[2], 0x4), If(m[3], 0x8)),
         Four(If(m[4], 0x10), If(m[5], 0x20), If(m[6], 0x40), If(m[7], 0x80)),
         Four(If(m[8], 0x100), If(m[9], 0x200), If(m[10], 0x400), If(m[11], 0x800)),
         Four(If(m[12], 0x1000), If(m[13], 0x2000), If(m[14], 0x4000), 0))
  }

  predicate Has(x: Word, m: Word) { x & m != 0 }

  lemma LowBits(x: Word)
    ensures BitOf(x, 0) == Has(x, 0x1) && BitOf(x, 1) == Has(x, 0x2) && BitOf(x, 2) == Has(x, 0x4) && BitOf(x, 3) == Has(x, 0x8)
    ensures BitOf(x, 4) == Has(x, 0x10) && BitOf(x, 5) == Has(x, 0x20) && BitOf(x, 6) == Has(x, 0x40) && BitOf(x, 7) == Has(x, 0x80)
  {
  }

  lemma HighBits(x: Word)
    ensures BitOf(x, 8) == Has(x, 0x100) && BitOf(x, 9) == Has(x, 0x200) && BitOf(x, 10) == Has(x, 0x400) && BitOf(x, 11) == Has(x, 0x800)
    ensures BitOf(x, 12) == Has(x, 0x1000) && BitOf(x, 13) == Has(x, 0x2000) && BitOf(x, 14) == Has(x, 0x4000)
  {
  }

  function And(x: Word, m: Word): Word { x & m }

  lemma OneBit(x: Word, m: Word)
    requires m in {0x1, 0x2, 0x4, 0x8, 0x10, 0x20, 0x40, 0x80, 0x100, 0x200, 0x400, 0x800, 0x1000, 0x2000, 0x4000}
    ensures If(Has(x, m), m) == And(x, m)
  {
  }

  lemma FourRaw(x: Word)
    ensures Four(x & 0x1, x & 0x2, x & 0x4, x & 0x8) == x & 0xf
    ensures Four(x & 0x10, x & 0x20, x & 0x40, x & 0x80) == x & 0xf0
    ensures Four(x & 0x100, x & 0x200, x & 0x400, x & 0x800) == x & 0xf00
    ensures x >> 15 == 0 ==> Four(x & 0x1000, x & 0x2000, x & 0x4000, 0) == x & 0xf000
    ensures Four(x & 0xf, x & 0xf0, x & 0xf00, x & 0xf000) == x
  {
  }

  lemma FourBits(x: Word)
    ensures Four(And(x, 0x1), And(x, 0x2), And(x, 0x4), And(x, 0x8)) == And(x, 0xf)
    ensures Four(And(x, 0x10), And(x, 0x20), And(x, 0x40), And(x, 0x80)) == And(x, 0xf0)
    ensures Four(And(x, 0x100), And(x, 0x200), And(x, 0x400), And(x, 0x800)) == And(x, 0xf00)
    ensures x >> 15 == 0 ==> Four(And(x, 0x1000), And(x, 0x2000), And(x, 0x4000), 0) == And(x, 0xf000)
    ensures Four(And(x, 0xf), And(x, 0xf0), And(x, 0xf00), And(x, 0xf000)) == x
  {
    FourRaw(x);
    hide Four;
  }

  lemma LowAssembles(x: Word)
    ensures Four(If(BitOf(x, 0), 0x1), If(BitOf(x, 1), 0x2), If(BitOf(x, 2), 0x4), If(BitOf(x, 3), 0x8)) == And(x, 0xf)
    ensures Four(If(BitOf(x, 4), 0x10), If(BitOf(x, 5), 0x20), If(BitOf(x, 6), 0x40), If(BitOf(x, 7), 0x80)) == And(x, 0xf0)
  {
    LowBits(x);
    FourBits(x);
    hide BitOf, Has, If, Four, And;
    OneBit(x, 0x1); OneBit(x, 0x2); OneBit(x, 0x4); OneBit(x, 0x8);
    OneBit(x, 0x10); OneBit(x, 0x20); OneBit(x, 0x40); OneBit(x, 0x80);
  }

  lemma HighAssembles(x: Word)
    requires x >> 15 == 0
    ensures Four(If(BitOf(x, 8), 0x100), If(BitOf(x, 9), 0x200), If(BitOf(x, 10), 0x400), If(BitOf(x, 11), 0x800)) == And(x, 0xf00)
    ensures Four(If(BitOf(x, 12), 0x1000), If(BitOf(x, 13), 0x2000), If(BitOf(x, 14), 0x4000), 0) == And(x, 0xf000)
  {
    HighBits(x);
    FourBits(x);
    hide BitOf, Has, If, Four, And;
    OneBit(x, 0x100); OneBit(x, 0x200); OneBit(x, 0x400); OneBit(x, 0x800);
    OneBit(x, 0x1000); OneBit(x, 0x2000); OneBit(x, 0x4000);
  }

  lemma WordAssembles(x: Word)
    requires x >> 15 == 0
    ensures Assembled(WordOf(x)) == x
  {
    hide BitOf, If, Four, And, WordOf;
    LowAssembles(x);
    HighAssembles(x);
    FourBits(x);
    ModulesAre(x);
  }

  lemma ModulesAre(x: Word)
    ensures var m := WordOf(x); |m| == 15 && forall i | 0 <= i < 15 :: m[i] == BitOf(x, i)
  {
    hide BitOf;
  }

  /** The modules name the level and mask. */
  predicate WordNames(word: seq<bool>, level: nat, mask: nat)
    requires level < 4 && mask < 8
  {
    |word| == 15 && Names(Assembled(word), level, mask)
  }

  /** The format words of a level, one for each mask. */
  method FormatWords(level: nat) returns (words: seq<seq<bool>>)
    requires level < 4
    ensures |words| == 8 && forall k: nat | k < 8 :: |words[k]| == 15 && WordNames(words[k], level, k)
  {
    hide Names, WordOf, Assembled;
    words := [];
    for k := 0 to 8
      invariant |words| == k && forall i: nat | i < k :: |words[i]| == 15 && WordNames(words[i], level, i)
    {
      var bits := FormatBits(level, k);
      WordAssembles(bits);
      words := words + [WordOf(bits)];
    }
  }

  // ----- Why ten check bits -----

  function Ones(w: Word): nat
  {
    One(w, 0x4000) + One(w, 0x2000) + One(w, 0x1000) + One(w, 0x800) + One(w, 0x400) + One(w, 0x200) + One(w, 0x100) + One(w, 0x80)
    + One(w, 0x40) + One(w, 0x20) + One(w, 0x10) + One(w, 8) + One(w, 4) + One(w, 2) + One(w, 1)
  }

  function One(w: Word, m: Word): nat { if w & m != 0 then 1 else 0 }

  lemma FlipAdds(a: Word, b: Word, x: bool, y: bool, g: Word)
    ensures Flip(Xor(a, b), x != y, g) == Xor(Flip(a, x, g), Flip(b, y, g))
  {
    hide Xor;
    XorMoves(a, b, g);
    if x { if y {} else {} } else { if y {} else {} }
  }

  lemma XorMoves(a: Word, b: Word, g: Word)
    ensures Xor(Xor(a, g), b) == Xor(Xor(a, b), g) && Xor(a, Xor(b, g)) == Xor(Xor(a, b), g) && Xor(Xor(a, g), Xor(b, g)) == Xor(a, b)
  {
  }

  lemma CancelAdds14(a: Word, b: Word)
    ensures Cancel14(Xor(a, b)) == Xor(Cancel14(a), Cancel14(b))
  {
    assert Bit14(Xor(a, b)) == (Bit14(a) != Bit14(b));
    hide Xor, Flip, Bit14;
    FlipAdds(a, b, Bit14(a), Bit14(b), 0x5370);
  }

  lemma CancelAdds13(a: Word, b: Word)
    ensures Cancel13(Xor(a, b)) == Xor(Cancel13(a), Cancel13(b))
  {
    assert Bit13(Xor(a, b)) == (Bit13(a) != Bit13(b));
    hide Xor, Flip, Bit13;
    FlipAdds(a, b, Bit13(a), Bit13(b), 0x29b8);
  }

  lemma CancelAdds12(a: Word, b: Word)
    ensures Cancel12(Xor(a, b)) == Xor(Cancel12(a), Cancel12(b))
  {
    assert Bit12(Xor(a, b)) == (Bit12(a) != Bit12(b));
    hide Xor, Flip, Bit12;
    FlipAdds(a, b, Bit12(a), Bit12(b), 0x14dc);
  }

  lemma CancelAdds11(a: Word, b: Word)
    ensures Cancel11(Xor(a, b)) == Xor(Cancel11(a), Cancel11(b))
  {
    assert Bit11(Xor(a, b)) == (Bit11(a) != Bit11(b));
    hide Xor, Flip, Bit11;
    FlipAdds(a, b, Bit11(a), Bit11(b), 0xa6e);
  }

  lemma CancelAdds10(a: Word, b: Word)
    ensures Cancel10(Xor(a, b)) == Xor(Cancel10(a), Cancel10(b))
  {
    assert Bit10(Xor(a, b)) == (Bit10(a) != Bit10(b));
    hide Xor, Flip, Bit10;
    FlipAdds(a, b, Bit10(a), Bit10(b), 0x537);
  }

  lemma RestAdds(a: Word, b: Word)
    ensures Rest(Xor(a, b)) == Xor(Rest(a), Rest(b))
  {
    hide Xor, Cancel10, Cancel11, Cancel12, Cancel13, Cancel14;
    CancelAdds14(a, b);
    var (a1, b1) := (Cancel14(a), Cancel14(b));
    CancelAdds13(a1, b1);
    var (a2, b2) := (Cancel13(a1), Cancel13(b1));
    CancelAdds12(a2, b2);
    var (a3, b3) := (Cancel12(a2), Cancel12(b2));
    CancelAdds11(a3, b3);
    CancelAdds10(Cancel11(a3), Cancel11(b3));
  }

  lemma WeightLow(c: Word)
    requires c < 0x8000 && Rest(c) == 0 && c != 0 && c >> 10 < 16
    ensures Ones(c) >= 7
  {
    if c >> 10 == 0 {} else if c >> 10 == 1 {} else if c >> 10 == 2 {} else if c >> 10 == 3 {} else if c >> 10 == 4 {}
    else if c >> 10 == 5 {} else if c >> 10 == 6 {} else if c >> 10 == 7 {} else if c >> 10 == 8 {} else if c >> 10 == 9 {}
    else if c >> 10 == 10 {} else if c >> 10 == 11 {} else if c >> 10 == 12 {} else if c >> 10 == 13 {} else if c >> 10 == 14 {} else {}
  }

  lemma WeightHigh(c: Word)
    requires c < 0x8000 && Rest(c) == 0 && c != 0 && c >> 10 >= 16
    ensures Ones(c) >= 7
  {
    if c >> 10 == 16 {} else if c >> 10 == 17 {} else if c >> 10 == 18 {} else if c >> 10 == 19 {} else if c >> 10 == 20 {}
    else if c >> 10 == 21 {} else if c >> 10 == 22 {} else if c >> 10 == 23 {} else if c >> 10 == 24 {} else if c >> 10 == 25 {}
    else if c >> 10 == 26 {} else if c >> 10 == 27 {} else if c >> 10 == 28 {} else if c >> 10 == 29 {} else if c >> 10 == 30 {} else {}
  }

  lemma Weight(c: Word)
    requires c < 0x8000 && Rest(c) == 0 && c != 0
    ensures Ones(c) >= 7
  {
    hide Rest, Ones;
    if c >> 10 < 16 { WeightLow(c); } else { WeightHigh(c); }
  }

  /** Any two format words differ in at least seven of their fifteen bits, so a reader can correct three. */
  lemma FarApart(a: Word, b: Word, l: nat, m: nat, l2: nat, m2: nat)
    requires l < 4 && m < 8 && l2 < 4 && m2 < 8 && Names(a, l, m) && Names(b, l2, m2) && a != b
    ensures Ones(a ^ b) >= 7
  {
    var x, y := Xor(a, PATTERN), Xor(b, PATTERN);
    assert x == a ^ PATTERN && y == b ^ PATTERN;
    RestAdds(x, y);
    XorMoves(a, b, PATTERN);
    assert Xor(a, b) == a ^ b;
    BothShort(a, b);
    Differ(a, b);
    hide Xor, Rest, Ones;
    Weight(a ^ b);
  }

  lemma BothShort(a: Word, b: Word)
    requires a ^ PATTERN < 0x8000 && b ^ PATTERN < 0x8000
    ensures a ^ b < 0x8000
  {
  }

  lemma Differ(a: Word, b: Word)
    requires a != b
    ensures a ^ b != 0
  {
  }
}
