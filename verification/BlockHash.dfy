/** Hashing by blocks of 64 octets: folding, and the padding that MD5 and SM3 share. */
module BlockHash {
  import opened Octets

  /** Whole blocks of x folded into h, first to last. */
  function Folded<H>(f: (H, Octets) -> H, h: H, x: Octets): H
  {
    if |x| < 64 then h else Folded(f, f(h, x[..64]), x[64..])
  }

  lemma {:induction false} FoldedJoin<H>(f: (H, Octets) -> H, h: H, x: Octets, y: Octets)
    requires |x| % 64 == 0
    ensures Folded(f, h, x + y) == Folded(f, Folded(f, h, x), y)
  {
    if x == [] {
      assert x + y == y;
    } else {
      assert (x + y)[..64] == x[..64] && (x + y)[64..] == x[64..] + y;
      FoldedJoin(f, f(h, x[..64]), x[64..], y);
    }
  }

  lemma FoldedOne<H>(f: (H, Octets) -> H, h: H, b: Octets)
    requires |b| == 64
    ensures Folded(f, h, b) == f(h, b)
  {
    assert b[..64] == b;
    assert Folded(f, f(h, b), b[64..]) == f(h, b);
  }

  /** One block more after whole blocks. */
  lemma FoldedSnoc<H>(f: (H, Octets) -> H, h: H, x: Octets, b: Octets)
    requires |x| % 64 == 0 && |b| == 64
    ensures Folded(f, h, x + b) == f(Folded(f, h, x), b)
  {
    FoldedJoin(f, h, x, b);
    FoldedOne(f, Folded(f, h, x), b);
  }

  // ----- The length, as 64 bits -----

  function Bit(b: bool, mask: Octet): Octet { if b then mask else 0 }

  function Bits(a: bool, b: bool, c: bool, d: bool, e: bool, f: bool, g: bool, h: bool): Octet
  {
    Bit(a, 0x80) | Bit(b, 0x40) | Bit(c, 0x20) | Bit(d, 0x10) | Bit(e, 8) | Bit(f, 4) | Bit(g, 2) | Bit(h, 1)
  }

  predicate Odd(n: nat) { n % 2 == 1 }

  /** The low eight bits of a number. */
  function OctetOf(n: nat): Octet
  {
    Bits(Odd(n / 128), Odd(n / 64), Odd(n / 32), Odd(n / 16), Odd(n / 8), Odd(n / 4), Odd(n / 2), Odd(n))
  }

  lemma BitsBack(a: bool, b: bool, c: bool, d: bool, e: bool, f: bool, g: bool, h: bool)
    ensures var o := Bits(a, b, c, d, e, f, g, h);
      (o & 0x80 != 0 <==> a) && (o & 0x40 != 0 <==> b) && (o & 0x20 != 0 <==> c) && (o & 0x10 != 0 <==> d) &&
      (o & 8 != 0 <==> e) && (o & 4 != 0 <==> f) && (o & 2 != 0 <==> g) && (o & 1 != 0 <==> h)
  {
  }

  lemma SameOdd(a: nat, b: nat)
    requires Odd(a) == Odd(b) && a / 2 == b / 2
    ensures a == b
  {
  }

  lemma Halvings(a: nat)
    ensures a / 2 / 2 == a / 4 && a / 4 / 2 == a / 8 && a / 8 / 2 == a / 16 && a / 16 / 2 == a / 32
    ensures a / 32 / 2 == a / 64 && a / 64 / 2 == a / 128 && a / 128 / 2 == a / 256
  {
  }

  /** A 32-bit number in four octets, lowest or highest first. */
  function Stored(low: bool, n: nat): (s: Octets)
    ensures |s| == 4
  {
    var a, b, c, d := OctetOf(n % 256), OctetOf(n / 256 % 256), OctetOf(n / 0x1_0000 % 256), OctetOf(n / 0x100_0000 % 256);
    if low then [a, b, c, d] else [d, c, b, a]
  }

  // ----- What stored octets say, whoever reads them -----

  /** The number that the bits of an octet spell. */
  function OctetValue(o: Octet): nat
  {
    (if o & 0x80 != 0 then 128 else 0) + (if o & 0x40 != 0 then 64 else 0) + (if o & 0x20 != 0 then 32 else 0)
    + (if o & 0x10 != 0 then 16 else 0) + (if o & 8 != 0 then 8 else 0) + (if o & 4 != 0 then 4 else 0)
    + (if o & 2 != 0 then 2 else 0) + (if o & 1 != 0 then 1 else 0)
  }

  /** Octets read as one number: the i-th counts 256^i times, from the front. */
  function LowFirst(s: Octets): nat
  {
    if s == [] then 0 else OctetValue(s[0]) + 256 * LowFirst(s[1..])
  }

  /** The same from the back. */
  function HighFirst(s: Octets): nat
  {
    if s == [] then 0 else 256 * HighFirst(s[..|s| - 1]) + OctetValue(s[|s| - 1])
  }

  function Weight(b: bool, w: nat): nat { if b then w else 0 }

  lemma BitsRead(a: bool, b: bool, c: bool, d: bool, e: bool, f: bool, g: bool, h: bool)
    ensures OctetValue(Bits(a, b, c, d, e, f, g, h)) ==
      Weight(a, 128) + Weight(b, 64) + Weight(c, 32) + Weight(d, 16) + Weight(e, 8) + Weight(f, 4) + Weight(g, 2) + Weight(h, 1)
  {
    hide Bits;
    BitsBack(a, b, c, d, e, f, g, h);
  }

  lemma BinaryDigits(n: nat)
    requires n < 256
    ensures Weight(Odd(n / 128), 128) + Weight(Odd(n / 64), 64) + Weight(Odd(n / 32), 32) + Weight(Odd(n / 16), 16)
      + Weight(Odd(n / 8), 8) + Weight(Odd(n / 4), 4) + Weight(Odd(n / 2), 2) + Weight(Odd(n), 1) == n
  {
    var c1, c2, c3, c4 := n / 2, n / 4, n / 8, n / 16;
    var c5, c6, c7 := n / 32, n / 64, n / 128;
    Halvings(n);
    BitStep(n);
    BitStep(c1);
    BitStep(c2);
    BitStep(c3);
    BitStep(c4);
    BitStep(c5);
    BitStep(c6);
    BitStep(c7);
    assert c7 / 2 == 0;
    hide Odd;
  }

  lemma BitStep(a: nat)
    ensures a == 2 * (a / 2) + if Odd(a) then 1 else 0
  {
  }

  lemma OctetReads(n: nat)
    requires n < 256
    ensures OctetValue(OctetOf(n)) == n
  {
    hide OctetValue, Bits, Odd, Weight;
    BitsRead(Odd(n / 128), Odd(n / 64), Odd(n / 32), Odd(n / 16), Odd(n / 8), Odd(n / 4), Odd(n / 2), Odd(n));
    BinaryDigits(n);
  }

  lemma LowStep(o: Octet, s: Octets)
    ensures LowFirst([o] + s) == OctetValue(o) + 256 * LowFirst(s)
  {
    hide OctetValue;
    assert ([o] + s)[1..] == s;
  }

  lemma HighStep(s: Octets, o: Octet)
    ensures HighFirst(s + [o]) == 256 * HighFirst(s) + OctetValue(o)
  {
    hide OctetValue;
    assert (s + [o])[..|s|] == s;
  }

  function FourValue(a: Octet, b: Octet, c: Octet, d: Octet): nat
  {
    OctetValue(a) + 256 * OctetValue(b) + 0x1_0000 * OctetValue(c) + 0x100_0000 * OctetValue(d)
  }

  /** Four octets before others, lowest first. */
  lemma FourLow(a: Octet, b: Octet, c: Octet, d: Octet, t: Octets)
    ensures LowFirst([a, b, c, d] + t) == FourValue(a, b, c, d) + 0x1_0000_0000 * LowFirst(t)
  {
    hide OctetValue, LowFirst;
    LowStep(d, t);
    LowStep(c, [d] + t);
    LowStep(b, [c] + ([d] + t));
    LowStep(a, [b] + ([c] + ([d] + t)));
    assert [a, b, c, d] + t == [a] + ([b] + ([c] + ([d] + t)));
  }

  /** Four octets behind others, lowest last. */
  lemma FourHigh(t: Octets, d: Octet, c: Octet, b: Octet, a: Octet)
    ensures HighFirst(t + [d, c, b, a]) == FourValue(a, b, c, d) + 0x1_0000_0000 * HighFirst(t)
  {
    hide OctetValue, HighFirst;
    HighStep(t, d);
    HighStep(t + [d], c);
    HighStep(t + [d] + [c], b);
    HighStep(t + [d] + [c] + [b], a);
    assert t + [d, c, b, a] == t + [d] + [c] + [b] + [a];
  }

  lemma LowFirstJoin(s: Octets, t: Octets)
    requires |s| == 4
    ensures LowFirst(s + t) == LowFirst(s) + 0x1_0000_0000 * LowFirst(t)
  {
    FourLow(s[0], s[1], s[2], s[3], t);
    FourLow(s[0], s[1], s[2], s[3], []);
    assert LowFirst([]) == 0;
    hide FourValue, LowFirst;
    assert s == [s[0], s[1], s[2], s[3]] && s + [] == s;
  }

  lemma HighFirstJoin(t: Octets, s: Octets)
    requires |s| == 4
    ensures HighFirst(t + s) == HighFirst(s) + 0x1_0000_0000 * HighFirst(t)
  {
    FourHigh(t, s[0], s[1], s[2], s[3]);
    FourHigh([], s[0], s[1], s[2], s[3]);
    assert HighFirst([]) == 0;
    hide FourValue, HighFirst;
    assert s == [s[0], s[1], s[2], s[3]] && [] + s == s;
  }

  lemma EmptyReads()
    ensures LowFirst([]) == 0 && HighFirst([]) == 0
  {
  }

  /** A stored word reads as the number stored, in the order meant. */
  lemma StoredReads(low: bool, n: nat)
    requires n < Two32
    ensures if low then LowFirst(Stored(low, n)) == n else HighFirst(Stored(low, n)) == n
  {
    hide OctetOf, OctetValue, LowFirst, HighFirst;
    var a, b, c, d := OctetOf(n % 256), OctetOf(n / 256 % 256), OctetOf(n / 0x1_0000 % 256), OctetOf(n / 0x100_0000 % 256);
    OctetReads(n % 256);
    OctetReads(n / 256 % 256);
    OctetReads(n / 0x1_0000 % 256);
    OctetReads(n / 0x100_0000 % 256);
    Digits(n);
    FourLow(a, b, c, d, []);
    FourHigh([], d, c, b, a);
    EmptyReads();
    assert [a, b, c, d] + [] == [a, b, c, d] && [] + [d, c, b, a] == [d, c, b, a];
  }

  const Two32: nat := 0x1_0000_0000
  const Two64: nat := 0x1_0000_0000_0000_0000

  /** The two halves of a number mod 2^64. */
  function Lower(n: nat): nat { n % Two32 }

  function Upper(n: nat): nat { n / Two32 % Two32 }

  function Length(low: bool, bits: nat): (s: Octets)
    ensures |s| == 8
  {
    if low then Stored(low, Lower(bits)) + Stored(low, Upper(bits)) else Stored(low, Upper(bits)) + Stored(low, Lower(bits))
  }

  /** The stored length reads as the number of bits, mod 2^64. */
  lemma LengthReads(low: bool, bits: nat)
    ensures if low then LowFirst(Length(low, bits)) == bits % Two64 else HighFirst(Length(low, bits)) == bits % Two64
  {
    hide Stored, LowFirst, HighFirst, Lower, Upper;
    Halves(bits);
    StoredReads(low, Lower(bits));
    StoredReads(low, Upper(bits));
    if low {
      LowFirstJoin(Stored(low, Lower(bits)), Stored(low, Upper(bits)));
    } else {
      HighFirstJoin(Stored(low, Upper(bits)), Stored(low, Lower(bits)));
    }
  }

  // ----- Padding -----

  function Zeros(k: nat): (z: Octets)
    ensures |z| == k
  {
    seq(k, _ => 0)
  }

  /** How many zero octets go between the mark and the length. */
  function Gap(n: nat): (k: nat)
    ensures k < 64 && (n + 9 + k) % 64 == 0
  {
    Remains(n);
    (119 - n % 64) % 64
  }

  lemma Remains(n: nat)
    ensures (n + 9 + (119 - n % 64) % 64) % 64 == 0
  {
    var q, r := n / 64, n % 64;
    assert n == 64 * q + r;
    assert r <= 55 ==> (119 - r) % 64 == 55 - r;
    assert r > 55 ==> (119 - r) % 64 == 119 - r;
  }

  /** It is the least number that leaves eight octets of the last block. */
  lemma GapIsLeast(n: nat, k: nat)
    requires (n + 9 + k) % 64 == 0
    ensures Gap(n) <= k
  {
    assert (Gap(n) - k) % 64 == 0;
  }

  function Padded(low: bool, m: Octets): (p: Octets)
    ensures |p| % 64 == 0 && |p| == |m| + Gap(|m|) + 9
  {
    m + [0x80] + Zeros(Gap(|m|)) + Length(low, 8 * |m|)
  }

  /** What any reader finds at the end of a padded message: the number of bits in it mod 2^64, lowest octet first for MD5,
      highest first for SM3. */
  lemma PaddedTellsLength(low: bool, m: Octets)
    ensures var p := Padded(low, m);
      if low then LowFirst(p[|p| - 8..]) == 8 * |m| % Two64 else HighFirst(p[|p| - 8..]) == 8 * |m| % Two64
  {
    hide Length, LowFirst, HighFirst;
    var p := Padded(low, m);
    assert p[|p| - 8..] == Length(low, 8 * |m|);
    LengthReads(low, 8 * |m|);
  }

  /** Before it: the message, the mark, and nothing but zeros. */
  lemma PaddedHolds(low: bool, m: Octets)
    ensures var p := Padded(low, m);
      p[..|m|] == m && p[|m|] == 0x80 && forall i | |m| < i < |p| - 8 :: p[i] == 0
  {
    hide Length;
  }

  lemma StoredBack(low: bool, a: nat, b: nat)
    requires a < Two32 && b < Two32 && Stored(low, a) == Stored(low, b)
    ensures a == b
  {
    hide OctetOf, Stored;
    DigitsSame(low, a, b);
    Digits(a);
    Digits(b);
  }

  lemma DigitsSame(low: bool, a: nat, b: nat)
    requires Stored(low, a) == Stored(low, b)
    ensures a % 256 == b % 256 && a / 256 % 256 == b / 256 % 256
    ensures a / 0x1_0000 % 256 == b / 0x1_0000 % 256 && a / 0x100_0000 % 256 == b / 0x100_0000 % 256
  {
    hide OctetOf;
    OctetSame(a % 256, b % 256);
    OctetSame(a / 256 % 256, b / 256 % 256);
    OctetSame(a / 0x1_0000 % 256, b / 0x1_0000 % 256);
    OctetSame(a / 0x100_0000 % 256, b / 0x100_0000 % 256);
    var s, t := Stored(low, a), Stored(low, b);
    assert s[0] == t[0] && s[1] == t[1] && s[2] == t[2] && s[3] == t[3];
  }

  lemma OctetSame(a: nat, b: nat)
    requires a < 256 && b < 256 && OctetOf(a) == OctetOf(b)
    ensures a == b
  {
    hide Bits, Odd;
    BitsBack(Odd(a / 128), Odd(a / 64), Odd(a / 32), Odd(a / 16), Odd(a / 8), Odd(a / 4), Odd(a / 2), Odd(a));
    BitsBack(Odd(b / 128), Odd(b / 64), Odd(b / 32), Odd(b / 16), Odd(b / 8), Odd(b / 4), Odd(b / 2), Odd(b));
    Halvings(a);
    Halvings(b);
    assert a / 256 == b / 256;
    SameOdd(a / 128, b / 128);
    SameOdd(a / 64, b / 64);
    SameOdd(a / 32, b / 32);
    SameOdd(a / 16, b / 16);
    SameOdd(a / 8, b / 8);
    SameOdd(a / 4, b / 4);
    SameOdd(a / 2, b / 2);
    SameOdd(a, b);
  }

  lemma Digits(a: nat)
    requires a < Two32
    ensures a == a % 256 + 256 * (a / 256 % 256) + 0x1_0000 * (a / 0x1_0000 % 256) + 0x100_0000 * (a / 0x100_0000 % 256)
  {
    assert a / 256 / 256 == a / 0x1_0000 && a / 0x1_0000 / 256 == a / 0x100_0000;
  }

  lemma LengthBack(low: bool, a: nat, b: nat)
    requires Length(low, a) == Length(low, b)
    ensures a % Two64 == b % Two64
  {
    hide Stored, Lower, Upper;
    var s, t := Length(low, a), Length(low, b);
    assert s[..4] == t[..4] && s[4..] == t[4..];
    Halves(a);
    Halves(b);
    StoredBack(low, Lower(a), Lower(b));
    StoredBack(low, Upper(a), Upper(b));
  }

  lemma Halves(a: nat)
    ensures Lower(a) < Two32 && Upper(a) < Two32 && Lower(a) + Two32 * Upper(a) == a % Two64
  {
  }

  /** Two messages with the same padded form are the same message, of any length: the length counted mod 2^64 and the
      number of blocks together still tell every two apart. */
  lemma PaddingTellsApart(low: bool, a: Octets, b: Octets)
    requires Padded(low, a) == Padded(low, b)
    ensures a == b
  {
    hide Length, Gap;
    var p := Padded(low, a);
    assert p[|p| - 8..] == Length(low, 8 * |a|) && p[|p| - 8..] == Length(low, 8 * |b|);
    LengthBack(low, 8 * |a|, 8 * |b|);
    SameLength(|a|, |b|);
    assert p[..|a|] == a && p[..|b|] == b;
  }

  lemma SameLength(a: nat, b: nat)
    requires (8 * a) % Two64 == (8 * b) % Two64 && a + Gap(a) == b + Gap(b)
    ensures a == b
  {
    hide Gap;
    Multiples(8 * a, 8 * b);
  }

  lemma Multiples(a: nat, b: nat)
    requires a % Two64 == b % Two64 && a - b < Two64 && b - a < Two64
    ensures a == b
  {
    assert (a - b) % Two64 == 0;
  }

  lemma GapIs(n: nat, r: nat)
    requires r == n % 64
    ensures Gap(n) == if r < 56 then 55 - r else 119 - r
  {
  }

  /** The last blocks of the padded message: what is left of the message, the mark, zeros, the length. */
  lemma PaddedShort(low: bool, m: Octets, r: nat)
    requires r == |m| % 64 && r < 56
    ensures Padded(low, m) == m[..|m| - r] + (m[|m| - r..] + [0x80] + Zeros(55 - r) + Length(low, 8 * |m|))
  {
    GapIs(|m|, r);
    hide Length, Zeros, Gap;
    assert m == m[..|m| - r] + m[|m| - r..];
  }

  lemma PaddedLong(low: bool, m: Octets, r: nat)
    requires r == |m| % 64 && r >= 56
    ensures Padded(low, m) == m[..|m| - r] + (m[|m| - r..] + [0x80] + Zeros(63 - r)) + (Zeros(56) + Length(low, 8 * |m|))
  {
    GapIs(|m|, r);
    hide Length, Gap;
    assert Zeros(119 - r) == Zeros(63 - r) + Zeros(56);
    assert m == m[..|m| - r] + m[|m| - r..];
  }

  /** The last block as the stores build it in place: zeros up to 56, then two words. */
  lemma Composed(kept: Octets, z: Octets, a: Octets, b: Octets, was: Octets)
    requires |kept| + |z| == 56 && |a| == |b| == 4 && |was| == 64
    ensures (var s := kept + z + was[56..];
      var u := s[..56] + a + s[60..];
      u[..60] + b + u[64..] == kept + z + (a + b))
  {
  }

  /** What is left at the end gets one more block, or two. */
  lemma {:induction false} LastBlocks<H>(f: (H, Octets) -> H, h: H, low: bool, m: Octets, r: nat)
    requires r == Held(|m|)
    ensures (var g := Folded(f, h, m[..|m| - r]);
      var tail := m[|m| - r..] + [0x80];
      var last := Length(low, 8 * |m|);
      Folded(f, h, Padded(low, m)) ==
        if r < 56 then f(g, tail + Zeros(55 - r) + last) else f(f(g, tail + Zeros(63 - r)), Zeros(56) + last))
  {
    hide Padded, Length, Zeros, Folded;
    var base := m[..|m| - r];
    var tail := m[|m| - r..] + [0x80];
    var last := Length(low, 8 * |m|);
    if r < 56 {
      PaddedShort(low, m, r);
      FoldedSnoc(f, h, base, tail + Zeros(55 - r) + last);
    } else {
      PaddedLong(low, m, r);
      FoldedSnoc(f, h, base, tail + Zeros(63 - r));
      FoldedSnoc(f, h, base + (tail + Zeros(63 - r)), Zeros(56) + last);
    }
  }

  // ----- A message fed in parts -----

  predicate Aligned(p: nat) { p % 64 == 0 }

  /** How many octets are held back after n. */
  function Held(n: nat): (k: nat)
    ensures k < 64 && k <= n
  {
    n % 64
  }

  /** The message up to p is folded in, the rest of it is at hand. */
  ghost predicate At(m: Octets, p: nat, rest: Octets) { Aligned(p) && p <= |m| && m[p..] == rest }

  lemma AtHeld(m: Octets, input: Octets, p: nat)
    requires p == |m| - Held(|m|)
    ensures At(m + input, p, m[p..] + input) && (m + input)[..p] == m[..p]
  {
  }

  lemma AlignedAdds(p: nat, k: nat)
    requires Aligned(p) && Aligned(k)
    ensures p % 64 == 0 && Aligned(p + k)
  {
  }

  /** Whole blocks that come next. */
  lemma {:induction false} AtNext<H>(f: (H, Octets) -> H, h: H, m: Octets, p: nat, rest: Octets, k: nat)
    requires At(m, p, rest) && k <= |rest| && Aligned(k)
    ensures At(m, p + k, rest[k..])
    ensures Folded(f, h, m[..p + k]) == Folded(f, Folded(f, h, m[..p]), rest[..k])
  {
    AlignedAdds(p, k);
    hide Aligned, Folded;
    assert m[..p + k] == m[..p] + rest[..k];
    assert m[p + k..] == rest[k..];
    FoldedJoin(f, h, m[..p], rest[..k]);
  }

  lemma OneBlock(b: Octets)
    requires |b| == 64
    ensures b[..64] == b && Aligned(64)
  {
  }

  lemma WholeBlocks(len: nat, n: nat)
    requires n == len / 64
    ensures 64 * n <= len < 64 * n + 64 && Aligned(64 * n)
  {
  }

  lemma AtIs(m: Octets, p: nat, rest: Octets)
    requires At(m, p, rest)
    ensures p <= |m| && m[p..] == rest
  {
  }

  lemma AtEnd(m: Octets, p: nat, rest: Octets)
    requires At(m, p, rest) && |rest| < 64
    ensures |rest| == Held(|m|) && p == |m| - |rest|
  {
  }

  /** The pieces of a message, end to end. */
  function Joined(pieces: seq<Octets>): (m: Octets)
    ensures pieces == [] ==> m == []
  {
    if pieces == [] then [] else pieces[0] + Joined(pieces[1..])
  }

  lemma {:induction false} JoinedSnoc(pieces: seq<Octets>, x: Octets)
    ensures Joined(pieces + [x]) == Joined(pieces) + x
  {
    if pieces == [] {
      assert [x][1..] == [];
      assert pieces + [x] == [x];
    } else {
      assert (pieces + [x])[1..] == pieces[1..] + [x];
      JoinedSnoc(pieces[1..], x);
    }
  }
}
