/** Base64 as YS_Base64 writes and reads it: octets in, letters out, and back. */
module Base64 {
  import opened Octets

  const Pad: Octet := 61 // '='

  /** The letter for a six-bit value. */
  function Letter(v: Octet): Octet
  {
    if v < 26 then v + 65
    else if v < 52 then v + 71
    else if v < 62 then v - 4
    else if v == 62 then 43
    else 47
  }

  /** The value of a letter; 255 marks everything that is no letter. */
  function Value(c: Octet): Octet
  {
    if c == 43 then 62
    else if c == 47 then 63
    else if 48 <= c <= 57 then c + 4
    else if 65 <= c <= 90 then c - 65
    else if 97 <= c <= 122 then c - 71
    else 255
  }

  /** What the decoder accepts as a letter: within '+'..'z' and not marked in the table. */
  predicate IsLetter(c: Octet) { 43 <= c <= 122 && Value(c) != 255 }

  lemma LetterValue(v: Octet)
    requires v < 64
    ensures IsLetter(Letter(v)) && Value(Letter(v)) == v && Letter(v) != Pad
  {
  }

  lemma ValueLetter(c: Octet)
    requires IsLetter(c)
    ensures Value(c) < 64 && Letter(Value(c)) == c
  {
  }

  // ----- Encoding -----

  function At(x: Octets, p: int): Octet { if 0 <= p < |x| then x[p] else 0 }

  /** Six bits: `r` says which quarter of a group of three octets, l and c are the octets they straddle. */
  function Split(r: int, l: Octet, c: Octet): Octet
  {
    if r == 0 then (c >> 2) & 0x3F
    else if r == 1 then ((l & 0x3) << 4) | ((c >> 4) & 0xF)
    else if r == 2 then ((l & 0xF) << 2) | ((c >> 6) & 0x3)
    else l & 0x3F
  }

  /** The m-th group of six bits of the octets laid end to end, zeros after the end. */
  function Sextet(x: Octets, m: nat): Octet { Split(m % 4, At(x, m - m / 4 - 1), At(x, m - m / 4)) }

  /** Letters needed for n octets. */
  function Letters(n: nat): nat { n + n / 3 + if n % 3 == 0 then 0 else 1 }

  function Line(x: Octets, n: nat): Octets { seq(n, m requires 0 <= m < n => Letter(Sextet(x, m))) }

  function Encoded(x: Octets): Octets { Line(x, Letters(|x|)) + seq((3 - |x| % 3) % 3, _ => Pad) }

  lemma SplitFits(r: int, l: Octet, c: Octet)
    ensures Split(r, l, c) < 64
  {
  }

  // ----- The letters and bits of the standard (section 4 of RFC 4648) -----

  const UPPER := "ABCDEFGHIJKLMNOPQRSTUVWXYZ"
  const LOWER := "abcdefghijklmnopqrstuvwxyz"
  const DIGITS := "0123456789"

  lemma UpperLetter(v: Octet)
    requires v < 26
    ensures Letter(v) as nat == UPPER[v as nat] as nat
  {
    if v == 0 {} else if v == 1 {} else if v == 2 {} else if v == 3 {} else if v == 4 {} else if v == 5 {}
    else if v == 6 {} else if v == 7 {} else if v == 8 {} else if v == 9 {} else if v == 10 {} else if v == 11 {}
    else if v == 12 {} else if v == 13 {} else if v == 14 {} else if v == 15 {} else if v == 16 {} else if v == 17 {}
    else if v == 18 {} else if v == 19 {} else if v == 20 {} else if v == 21 {} else if v == 22 {} else if v == 23 {}
    else if v == 24 {} else {}
  }

  lemma LowerLetter(v: Octet)
    requires 26 <= v < 52
    ensures Letter(v) as nat == LOWER[v as nat - 26] as nat
  {
    if v == 26 {} else if v == 27 {} else if v == 28 {} else if v == 29 {} else if v == 30 {} else if v == 31 {}
    else if v == 32 {} else if v == 33 {} else if v == 34 {} else if v == 35 {} else if v == 36 {} else if v == 37 {}
    else if v == 38 {} else if v == 39 {} else if v == 40 {} else if v == 41 {} else if v == 42 {} else if v == 43 {}
    else if v == 44 {} else if v == 45 {} else if v == 46 {} else if v == 47 {} else if v == 48 {} else if v == 49 {}
    else if v == 50 {} else {}
  }

  lemma DigitLetter(v: Octet)
    requires 52 <= v < 62
    ensures Letter(v) as nat == DIGITS[v as nat - 52] as nat
  {
    if v == 52 {} else if v == 53 {} else if v == 54 {} else if v == 55 {} else if v == 56 {} else if v == 57 {}
    else if v == 58 {} else if v == 59 {} else if v == 60 {} else {}
  }

  lemma SignLetter()
    ensures Letter(62) as nat == '+' as nat && Letter(63) as nat == '/' as nat && Pad as nat == '=' as nat
  {
  }

  /** Bit k of an octet, and of a group of six bits, the highest first. */
  predicate Bit8(o: Octet, k: int)
  {
    if k == 0 then o & 0x80 != 0 else if k == 1 then o & 0x40 != 0 else if k == 2 then o & 0x20 != 0 else if k == 3 then o & 0x10 != 0
    else if k == 4 then o & 8 != 0 else if k == 5 then o & 4 != 0 else if k == 6 then o & 2 != 0 else k == 7 && o & 1 != 0
  }

  predicate Bit6(o: Octet, k: int)
  {
    if k == 0 then o & 0x20 != 0 else if k == 1 then o & 0x10 != 0 else if k == 2 then o & 8 != 0 else if k == 3 then o & 4 != 0
    else if k == 4 then o & 2 != 0 else k == 5 && o & 1 != 0
  }

  lemma SplitBits(r: int, l: Octet, c: Octet, j: int)
    requires 0 <= r < 4 && 0 <= j < 6
    ensures Bit6(Split(r, l, c), j) == if j < 2 * r then Bit8(l, 8 - 2 * r + j) else Bit8(c, j - 2 * r)
  {
    if r == 0 { SplitBits0(l, c, j); } else if r == 1 { SplitBits1(l, c, j); } else if r == 2 { SplitBits2(l, c, j); } else { SplitBits3(l, c, j); }
  }

  lemma SplitBits0(l: Octet, c: Octet, j: int)
    requires 0 <= j < 6
    ensures Bit6(Split(0, l, c), j) == if j < 0 then Bit8(l, 8 + j) else Bit8(c, j - 0)
  {
    if j == 0 {} else if j == 1 {} else if j == 2 {} else if j == 3 {} else if j == 4 {} else {}
  }

  lemma SplitBits1(l: Octet, c: Octet, j: int)
    requires 0 <= j < 6
    ensures Bit6(Split(1, l, c), j) == if j < 2 then Bit8(l, 6 + j) else Bit8(c, j - 2)
  {
    if j == 0 {} else if j == 1 {} else if j == 2 {} else if j == 3 {} else if j == 4 {} else {}
  }

  lemma SplitBits2(l: Octet, c: Octet, j: int)
    requires 0 <= j < 6
    ensures Bit6(Split(2, l, c), j) == if j < 4 then Bit8(l, 4 + j) else Bit8(c, j - 4)
  {
    if j == 0 {} else if j == 1 {} else if j == 2 {} else if j == 3 {} else if j == 4 {} else {}
  }

  lemma SplitBits3(l: Octet, c: Octet, j: int)
    requires 0 <= j < 6
    ensures Bit6(Split(3, l, c), j) == if j < 6 then Bit8(l, 2 + j) else Bit8(c, j - 6)
  {
    if j == 0 {} else if j == 1 {} else if j == 2 {} else if j == 3 {} else if j == 4 {} else {}
  }

  /** Bit i of octets laid end to end. */
  predicate StreamBit(x: Octets, i: nat) { i / 8 < |x| && Bit8(x[i / 8], i % 8) }

  /** The m-th letter stands for bits 6m to 6m + 5 of the octets laid end to end, zeros behind the end. */
  lemma SextetBits(x: Octets, m: nat, j: nat)
    requires j < 6
    ensures Bit6(Sextet(x, m), j) == StreamBit(x, 6 * m + j)
  {
    hide Split, Bit6, Bit8;
    var g, r := m / 4, m % 4;
    SplitBits(r, At(x, m - m / 4 - 1), At(x, m - m / 4), j);
    StreamPlace(m, j);
    ZeroBit(if j < 2 * r then 8 - 2 * r + j else j - 2 * r);
  }

  lemma StreamPlace(m: nat, j: nat)
    requires j < 6
    ensures var r := m % 4;
      if j < 2 * r then (6 * m + j) / 8 == m - m / 4 - 1 && (6 * m + j) % 8 == 8 - 2 * r + j
      else (6 * m + j) / 8 == m - m / 4 && (6 * m + j) % 8 == j - 2 * r
  {
    var g, r := m / 4, m % 4;
    assert m == 4 * g + r && 6 * m + j == 8 * (3 * g) + (6 * r + j);
    if r == 0 {} else if r == 1 {} else if r == 2 {} else {}
  }

  lemma ZeroBit(k: int)
    ensures !Bit8(0, k)
  {
  }

  method Encode(x: Octets) returns (out: Octets)
    requires |x| < 0x1_0000_0000
    ensures out == Encoded(x)
  {
    hide Letter, Split, Line;
    out := [];
    LineNone(x);
    var s, l: Octet, i: nat := 0, 0, 0;
    while i < |x|
      invariant i <= |x| && s == i % 3
      invariant l == At(x, i - 1)
      invariant out == Line(x, i + i / 3)
    {
      var c := x[i];
      var m := i + i / 3;
      LineGrows(x, m);
      LineGrows(x, m + 1);
      if s == 0 {
        s := 1;
        out := out + [Letter(Split(0, l, c))];
        assert Sextet(x, m) == Split(0, l, c);
      } else if s == 1 {
        s := 2;
        out := out + [Letter(Split(1, l, c))];
        assert Sextet(x, m) == Split(1, l, c);
      } else {
        s := 0;
        out := out + [Letter(Split(2, l, c))];
        out := out + [Letter(Split(3, c, 0))];
        assert Sextet(x, m) == Split(2, l, c);
        assert Sextet(x, m + 1) == Split(3, c, At(x, i + 1));
        LastQuarter(c, At(x, i + 1));
      }
      l := c;
      i := i + 1;
    }
    ghost var m := i + i / 3;
    LineGrows(x, m);
    if s == 1 {
      out := out + [Letter(Split(1, l, 0))];
      assert Sextet(x, m) == Split(1, l, 0);
      out := out + [Pad];
      out := out + [Pad];
    } else if s == 2 {
      out := out + [Letter(Split(2, l, 0))];
      assert Sextet(x, m) == Split(2, l, 0);
      out := out + [Pad];
    }
  }

  lemma LastQuarter(l: Octet, c: Octet)
    ensures Split(3, l, c) == Split(3, l, 0)
  {
  }

  lemma LineNone(x: Octets)
    ensures Line(x, 0) == []
  {
  }

  lemma LineGrows(x: Octets, m: nat)
    ensures Line(x, m + 1) == Line(x, m) + [Letter(Sextet(x, m))]
  {
  }

  // ----- Decoding -----

  datatype Reading = Text(octets: Octets) | NullText

  /** The first part of an octet; `r` is the octet's place in a group of three. */
  function Half(r: int, a: Octet): Octet
  {
    if r == 0 then (a << 2) & 0xFF
    else if r == 1 then (a & 0xF) << 4
    else (a & 0x3) << 6
  }

  /** The bits that finish it, from the next letter. */
  function Rest(r: int, b: Octet): Octet
  {
    if r == 0 then (b >> 4) & 0x3
    else if r == 1 then (b >> 2) & 0xF
    else b
  }

  function Join(r: int, a: Octet, b: Octet): Octet { Half(r, a) | Rest(r, b) }

  function OctetAt(q: Octets, k: nat): Octet
    requires k + k / 3 + 1 < |q|
  {
    Join(k % 3, Value(q[k + k / 3]), Value(q[k + k / 3 + 1]))
  }

  /** The whole octets that the letters q spell. */
  function Joined(q: Octets): Octets { seq(|q| * 3 / 4, k requires 0 <= k < |q| * 3 / 4 => OctetAt(q, k)) }

  /** The text up to its first '='. */
  function {:induction false} Front(t: Octets): (q: Octets)
    ensures |q| <= |t| && q == t[..|q|]
    ensures Pad !in q
    ensures |q| < |t| ==> t[|q|] == Pad
  {
    if |t| == 0 || t[0] == Pad then [] else [t[0]] + Front(t[1..])
  }

  predicate AllLetters(q: Octets) { forall i :: 0 <= i < |q| ==> IsLetter(q[i]) }

  function Decoded(t: Octets): Reading
  {
    if |t| % 4 != 0 then Text([])
    else if !AllLetters(Front(t)) then NullText
    else Text(Joined(Front(t)))
  }

  lemma {:induction false} FrontIs(t: Octets, n: nat)
    requires n <= |t| && (n < |t| ==> t[n] == Pad)
    requires forall i :: 0 <= i < n ==> t[i] != Pad
    ensures Front(t) == t[..n]
  {
    var q := Front(t);
    assert forall i :: 0 <= i < |q| ==> t[i] != Pad by {
      forall i | 0 <= i < |q|
        ensures t[i] != Pad
      {
        assert q[i] == t[i];
        assert q[i] in q;
      }
    }
  }

  /** What the decoder holds after i letters: whole octets, then the first part of the next. */
  ghost predicate Held(q: Octets, i: nat, out: Octets, j: nat)
  {
    i <= |q| && j == i * 3 / 4 && out[..] == Joined(q[..i]) + if i % 4 == 0 then [] else [Half(i % 4 - 1, Value(q[i - 1]))]
  }

  lemma JoinedGrows(q: Octets, i: nat)
    requires i < |q|
    ensures Joined(q[..i + 1]) == Joined(q[..i]) + (if i % 4 == 0 then [] else [Join(i % 4 - 1, Value(q[i - 1]), Value(q[i]))])
  {
    hide Join, Value;
    var a, b := Joined(q[..i]), Joined(q[..i + 1]);
    forall k: nat | k < |a|
      ensures a[k] == b[k]
    {
      assert k + k / 3 + 1 < i;
    }
    if i % 4 != 0 {
      var k := |a|;
      assert k == i * 3 / 4 && k + k / 3 + 1 == i && k % 3 == i % 4 - 1;
      assert b[k] == OctetAt(q[..i + 1], k);
    }
  }

  /** One more letter: its high bits finish the octet begun, the rest begin another. */
  lemma HeldGrows(q: Octets, i: nat, out: Octets, j: nat)
    requires i < |q| && Held(q, i, out, j)
    ensures |out| == j + if i % 4 == 0 then 0 else 1
    ensures i % 4 == 0 ==> Held(q, i + 1, out + [Half(0, Value(q[i]))], j)
    ensures (i % 4 != 0 ==>
      var was := out[j := out[j] | Rest(i % 4 - 1, Value(q[i]))];
      Held(q, i + 1, if i % 4 == 3 then was else was + [Half(i % 4, Value(q[i]))], j + 1))
  {
    hide Half, Rest, Value;
    JoinedGrows(q, i);
    if i % 4 != 0 {
      var was := out[j := out[j] | Rest(i % 4 - 1, Value(q[i]))];
      assert was == Joined(q[..i + 1]);
      assert i % 4 == 3 ==> (i + 1) % 4 == 0;
      assert i % 4 != 3 ==> (i + 1) % 4 - 1 == i % 4;
    }
  }

  lemma HeldNone(q: Octets)
    ensures Held(q, 0, [], 0)
  {
  }

  lemma HeldAll(q: Octets, out: Octets, j: nat)
    requires Held(q, |q|, out, j)
    ensures j <= |out| <= j + 1 && out[..j] == Joined(q)
  {
    hide Join, Half, Rest, Value;
    assert q[..|q|] == q;
  }

  method Decode(t: Octets) returns (r: Reading)
    requires |t| < 0x1_0000_0000
    ensures r == Decoded(t)
  {
    hide Half, Rest, Value, Held, Joined;
    var out: Octets := [];
    if |t| % 4 != 0 {
      return Text(out);
    }
    ghost var q := Front(t);
    var i: nat, j: nat := 0, 0;
    HeldNone(q);
    while i < |t|
      invariant i <= |q| && j <= |out|
      invariant forall k :: 0 <= k < i ==> IsLetter(t[k])
      invariant Held(q, i, out, j)
    {
      if t[i] == Pad {
        break;
      }
      assert i < |q| && q[i] == t[i];
      assert q[i] in q;
      if t[i] < 43 || t[i] > 122 {
        return NullText;
      }
      var c := Value(t[i]);
      if c == 255 {
        return NullText;
      }
      HeldGrows(q, i, out, j);
      if i % 4 == 0 {
        out := out + [Half(0, c)];
      } else if i % 4 == 1 {
        out := out[j := out[j] | Rest(0, c)];
        j := j + 1;
        out := out + [Half(1, c)];
      } else if i % 4 == 2 {
        out := out[j := out[j] | Rest(1, c)];
        j := j + 1;
        out := out + [Half(2, c)];
      } else {
        out := out[j := out[j] | Rest(2, c)];
        j := j + 1;
      }
      i := i + 1;
    }
    HeldAll(q, out, j);
    var k := 0;
    while k < |out| - j
      invariant j <= |out| <= j + 1 && out[..j] == Joined(q)
      invariant k == 1 ==> |out| == j
      invariant 0 <= k <= 1
    {
      out := out[..|out| - 1];
      k := k + 1;
    }
    assert out == Joined(q);
    assert AllLetters(q);
    return Text(out);
  }

  // ----- The two are inverse to each other -----

  lemma JoinSplit(r: int, a: Octet, b: Octet, c: Octet)
    requires 0 <= r < 3
    ensures Join(r, Split(r, a, b), Split(r + 1, b, c)) == b
  {
  }

  lemma {:induction false} EncodedShape(x: Octets)
    ensures |Encoded(x)| % 4 == 0 && |Encoded(x)| == (|x| + 2) / 3 * 4
    ensures Letters(|x|) <= |Encoded(x)| <= Letters(|x|) + 2
    ensures Letters(|x|) < |Encoded(x)| ==> Encoded(x)[|Encoded(x)| - 1] == Pad
    ensures Front(Encoded(x)) == Line(x, Letters(|x|))
    ensures AllLetters(Line(x, Letters(|x|)))
  {
    hide Letter, Value, Split;
    var n := Letters(|x|);
    var line := Line(x, n);
    forall m | 0 <= m < n
      ensures line[m] != Pad && IsLetter(line[m])
    {
      SplitFits(m % 4, At(x, m - m / 4 - 1), At(x, m - m / 4));
      LetterValue(Sextet(x, m));
    }
    FrontIs(Encoded(x), n);
    assert Encoded(x)[..n] == line;
  }

  /** Reading what was written gives back every octet string. */
  lemma {:induction false} RoundTrip(x: Octets)
    ensures Decoded(Encoded(x)) == Text(x)
  {
    hide Letter, Value, Split, Join, Letters, Encoded;
    EncodedShape(x);
    LettersCount(|x|);
    var q := Line(x, Letters(|x|));
    forall k: nat | k < |x|
      ensures k + k / 3 + 1 < |q| && OctetAt(q, k) == x[k]
    {
      OctetPlace(|x|, k);
      var m := k + k / 3;
      SextetValue(x, m);
      SextetValue(x, m + 1);
      JoinSplit(k % 3, At(x, k - 1), x[k], At(x, k + 1));
    }
    assert Joined(q) == x;
  }

  lemma LettersCount(n: nat)
    ensures Letters(n) * 3 / 4 == n
  {
  }

  /** Where octet k sits among the letters. */
  lemma OctetPlace(n: nat, k: nat)
    requires k < n
    ensures k + k / 3 + 1 < Letters(n)
    ensures var m := k + k / 3; m % 4 == k % 3 && m - m / 4 == k && (m + 1) % 4 == k % 3 + 1 && m + 1 - (m + 1) / 4 == k + 1
  {
  }

  lemma SextetValue(x: Octets, m: nat)
    ensures Value(Letter(Sextet(x, m))) == Sextet(x, m)
  {
    hide Letter, Value, Split;
    SplitFits(m % 4, At(x, m - m / 4 - 1), At(x, m - m / 4));
    LetterValue(Sextet(x, m));
  }

  /** The texts the encoder can write: whole groups of letters, at most two '=', and no stray bits before them. */
  predicate Canonical(t: Octets)
  {
    var q := Front(t);
    && |t| % 4 == 0
    && AllLetters(q)
    && |t| - |q| <= 2
    && (|q| < |t| ==> t[|t| - 1] == Pad)
    && (|q| % 4 == 2 ==> Value(q[|q| - 1]) & 0xF == 0)
    && (|q| % 4 == 3 ==> Value(q[|q| - 1]) & 0x3 == 0)
  }

  lemma SplitJoin(a: Octet, b: Octet, c: Octet, d: Octet, y: Octet)
    requires a < 64 && b < 64 && c < 64 && d < 64
    ensures Split(0, y, Join(0, a, b)) == a
    ensures Split(1, Join(0, a, b), Join(1, b, c)) == b
    ensures Split(2, Join(1, b, c), Join(2, c, d)) == c
    ensures Split(3, Join(2, c, d), y) == d
  {
  }

  lemma SplitTail(a: Octet, b: Octet, c: Octet)
    requires a < 64 && b < 64 && c < 64
    ensures b & 0xF == 0 <==> Split(1, Join(0, a, b), 0) == b
    ensures c & 0x3 == 0 <==> Split(2, Join(1, b, c), 0) == c
  {
  }

  /** Writing back what was read gives every letter again, bar the tail. */
  lemma {:induction false} SextetAgain(q: Octets, m: nat)
    requires AllLetters(q) && m < |q|
    requires |q| % 4 != 1
    requires m + 1 < |q| || |q| % 4 == 0
    ensures Sextet(Joined(q), m) == Value(q[m])
  {
    hide Letter, Value, Split, Join;
    var x := Joined(q);
    var g := m / 4 * 4;
    var k := m / 4 * 3;
    var a, b := Value(q[g]), Value(q[g + 1]);
    var c := if g + 2 < |q| then Value(q[g + 2]) else 0;
    var d := if g + 3 < |q| then Value(q[g + 3]) else 0;
    ValueLetter(q[g]);
    ValueLetter(q[g + 1]);
    if g + 2 < |q| { ValueLetter(q[g + 2]); }
    if g + 3 < |q| { ValueLetter(q[g + 3]); }
    assert k % 3 == 0 && k / 3 == m / 4;
    assert At(x, k) == Join(0, a, b);
    assert m % 4 >= 1 ==> At(x, k + 1) == Join(1, b, c);
    assert m % 4 >= 2 ==> At(x, k + 2) == Join(2, c, d);
    SplitJoin(a, b, c, d, At(x, m - m / 4 - 1));
    SplitJoin(a, b, c, d, At(x, m - m / 4));
  }

  lemma {:induction false} SextetLast(q: Octets)
    requires AllLetters(q) && (|q| % 4 == 2 || |q| % 4 == 3)
    ensures Sextet(Joined(q), |q| - 1) == Value(q[|q| - 1])
       <==> Value(q[|q| - 1]) & (if |q| % 4 == 2 then 0xF else 0x3) == 0
  {
    hide Letter, Value, Split, Join;
    var x := Joined(q);
    var m := |q| - 1;
    var k := |x| - 1;
    ValueLetter(q[m]);
    ValueLetter(q[m - 1]);
    if |q| % 4 == 2 {
      SplitTail(Value(q[m - 1]), Value(q[m]), 0);
      assert x[k] == Join(0, Value(q[m - 1]), Value(q[m]));
    } else {
      SplitTail(0, Value(q[m - 1]), Value(q[m]));
      assert x[k] == Join(1, Value(q[m - 1]), Value(q[m]));
    }
    assert m - m / 4 == |x|;
  }

  /** A text is what the encoder writes for x exactly when it is canonical and reads as x. */
  lemma {:induction false} EncodedIff(t: Octets, x: Octets)
    ensures t == Encoded(x) <==> Canonical(t) && Decoded(t) == Text(x)
  {
    if t == Encoded(x) {
      EncodedIsCanonical(x);
      RoundTrip(x);
    }
    if Canonical(t) && Decoded(t) == Text(x) {
      CanonicalAgain(t);
    }
  }

  lemma {:induction false} EncodedIsCanonical(x: Octets)
    ensures Canonical(Encoded(x))
  {
    hide Letter, Value, Split, Join, Letters, Sextet, Encoded;
    var t := Encoded(x);
    EncodedShape(x);
    RoundTrip(x);
    var q := Front(t);
    assert Joined(q) == x;
    if |q| % 4 == 2 || |q| % 4 == 3 {
      SextetLast(q);
      SextetValue(x, |q| - 1);
    }
  }

  lemma TailCount(n: nat, e: nat)
    requires (n + e) % 4 == 0 && e <= 2
    ensures e == (3 - (n * 3 / 4) % 3) % 3
    ensures n % 4 != 1 && Letters(n * 3 / 4) == n
  {
    var g, r := n / 4, n % 4;
    assert n == 4 * g + r;
    assert n * 3 / 4 == 3 * g + r * 3 / 4;
  }

  lemma CanonicalTail(t: Octets)
    requires Canonical(t)
    ensures t == Front(t) + seq((3 - (|Front(t)| * 3 / 4) % 3) % 3, _ => Pad)
    ensures |Front(t)| % 4 != 1 && Letters(|Front(t)| * 3 / 4) == |Front(t)|
  {
    hide Value, Letters;
    var q := Front(t);
    var e := |t| - |q|;
    TailCount(|q|, e);
    assert t[|q|..] == seq(e, _ => Pad);
    assert t == q + t[|q|..];
  }

  lemma {:induction false} CanonicalAgain(t: Octets)
    requires Canonical(t)
    ensures t == Encoded(Joined(Front(t)))
  {
    hide Letter, Value, Split, Join, Letters, Sextet;
    var q := Front(t);
    var x := Joined(q);
    CanonicalTail(t);
    forall m | 0 <= m < |q|
      ensures q[m] == Letter(Sextet(x, m))
    {
      ValueLetter(q[m]);
      if m + 1 < |q| || |q| % 4 == 0 {
        SextetAgain(q, m);
      } else {
        SextetLast(q);
      }
    }
    assert Line(x, |q|) == q;
  }
}
