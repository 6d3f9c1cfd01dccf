/** bigint: limbs times a power of 2^32, changed in place. */
module Bigint {
  import opened BigLimbs
  import opened BigCompare

  const INT_MAX := 0x7fff_ffff

  // ------------------------------------------------------------------ multiplying and shifting

  lemma MulTurn(was: Limbs, now: Limbs, i: nat, value: nat, carry: nat)
    requires i < |was| && i < |now| && was[i] == now[i] < B && value < B && carry < B
    requires Val(now[..i]) + carry * P(i) == Val(was[..i]) * value
    ensures var result := was[i] * value + carry;
      result < B * B && result / B < B &&
      Val(now[i := result % B][..i + 1]) + (result / B) * P(i + 1) == Val(was[..i + 1]) * value
  {
    hide Val, P, Power;
    var x := was[i];
    var result := x * value + carry;
    ProductBound(x, value);
    var next := now[i := result % B];
    assert next[..i] == now[..i];
    ValStep(next, i);
    ValStep(was, i);
    Carry(Val(now[..i]), result, i);
    MulAdd(Val(was[..i]), x * P(i), value);
    MulAdd(x * value, carry, P(i));
    MulAssoc(x, value, P(i));
    MulAssoc(x, P(i), value);
    MulAdd(value, P(i), 0);
    QuotientBound(result, B);
  }

  lemma QuotientBound(v: nat, p: nat)
    requires v < p * p && p > 0
    ensures v / p < p
  {
    DivMod(v, p);
    if v / p >= p { MulMono(p, v / p, p); }
  }

  /** A limb cut at a power of two, and moved up: what leaves at the top and what stays. */
  lemma CutLimb(x: nat, p: nat, q: nat, carry: nat, w: nat)
    requires p * q == w && x < w && carry < p && q > 0
    ensures x / q < p && (x * p) % w + carry < w && (x * p) % w + (x / q) * w == x * p
  {
    var (c, r) := (x / q, x % q);
    DivMod(x, q);
    MulAdd(c * q, r, p);
    MulAssoc(c, q, p);
    MulAdd(q, p, 0);
    MulMono(r, q - 1, p);
    MulAdd(q - 1, 1, p);
    DivUnique(x * p, w, c, r * p);
    if c >= p { MulMono(p, c, q); }
  }

  /** The bits shifted out of a limb and those that stay. */
  lemma ShiftTurn(x: nat, s: nat, carry: nat)
    requires x < B && 0 < s < 32 && carry < Power(2, s)
    ensures var c := x / Power(2, 32 - s);
      c < Power(2, s) && (x * Power(2, s)) % B + carry < B &&
      (x * Power(2, s)) % B + c * B == x * Power(2, s)
  {
    hide Power;
    PowerAdds(2, s, 32 - s);
    TwoToThe32();
    CutLimb(x, Power(2, s), Power(2, 32 - s), carry, B);
  }

  lemma TwoToThe32()
    ensures Power(2, 32) == B
  {
    assert Power(2, 8) == 0x100;
    assert Power(2, 16) == 0x1_0000;
    assert Power(2, 24) == 0x100_0000;
  }

  lemma ShiftLimb(was: Limbs, now: Limbs, i: nat, s: nat, carry: nat)
    requires i < |was| && i < |now| && was[i] == now[i] < B && 0 < s < 32 && carry < Power(2, s)
    requires Val(now[..i]) + carry * P(i) == Val(was[..i]) * Power(2, s)
    ensures var c := was[i] / Power(2, 32 - s);
      var limb := (was[i] * Power(2, s)) % B + carry;
      c < Power(2, s) && limb < B &&
      Val(now[i := limb][..i + 1]) + c * P(i + 1) == Val(was[..i + 1]) * Power(2, s)
  {
    hide Power;
    var (x, p) := (was[i], Power(2, s));
    var c := x / Power(2, 32 - s);
    ShiftTurn(x, s, carry);
    var low := (x * p) % B;
    var next := now[i := low + carry];
    assert next[..i] == now[..i];
    ValStep(next, i);
    ValStep(was, i);
    PStep(i);
    MulAdd(low, carry, P(i));
    MulAssoc(c, B, P(i));
    MulAdd(low, c * B, P(i));
    MulAdd(Val(was[..i]), x * P(i), p);
    MulAssoc(x, p, P(i));
    MulAssoc(x, P(i), p);
    MulAdd(p, P(i), 0);
  }

  /** A result whose value keeps its size keeps a top limb. */
  lemma NormalAfter(was: Limbs, now: Limbs, carry: nat, factor: nat)
    requires Normal(was) && LimbsOk(now) && |now| == |was| && carry < B && factor > 0
    requires Val(now) + carry * P(|now|) == Val(was) * factor
    ensures Normal(if carry != 0 then now + [carry] else now)
    ensures Val(if carry != 0 then now + [carry] else now) == Val(was) * factor
  {
    if carry != 0 {
      ValSnoc(now, carry);
    } else if now[|now| - 1] == 0 {
      var n := |now| - 1;
      ValBound(now[..n]);
      NormalBound(was);
      MulMono(1, factor, Val(was));
      MulAdd(factor, Val(was), 0);
    }
  }

  lemma TimesPower(v: nat, f: nat, e: nat)
    ensures (v * f) * P(e) == (v * P(e)) * f
  {
    MulAssoc(v, f, P(e));
    MulAssoc(v, P(e), f);
    MulAdd(f, P(e), 0);
  }

  /** The loop of multiply, from the lowest limb up. */
  method MultiplyLimbs(was: Limbs, value: nat) returns (now: Limbs, carry: nat)
    requires LimbsOk(was) && value < B
    ensures |now| == |was| && LimbsOk(now) && carry < B && Val(now) + carry * P(|now|) == Val(was) * value
  {
    hide Val, P, Power;
    now, carry := was, 0;
    var i: nat := 0;
    NoLimbs(now);
    while i < |now|
      invariant i <= |now| == |was| && carry < B && LimbsOk(now)
      invariant Val(now[..i]) + carry * P(i) == Val(was[..i]) * value
      invariant forall k | i <= k < |was| :: now[k] == was[k]
    {
      MulTurn(was, now, i, value, carry);
      var result := now[i] * value + carry;
      now := now[i := result % B];
      carry := result / B;
      i := i + 1;
    }
    assert now[..i] == now && was[..i] == was;
  }

  lemma NoLimbs(l: Limbs)
    ensures Val(l[..0]) == 0
  {
  }

  method ShiftLimbs(was: Limbs, s: nat) returns (now: Limbs, carry: nat)
    requires LimbsOk(was) && 0 < s < 32
    ensures |now| == |was| && LimbsOk(now) && carry < Power(2, s) && Val(now) + carry * P(|now|) == Val(was) * Power(2, s)
  {
    hide Val, P, Power;
    now, carry := was, 0;
    var i: nat := 0;
    NoLimbs(now);
    while i < |now|
      invariant i <= |now| == |was| && carry < Power(2, s) && LimbsOk(now)
      invariant Val(now[..i]) + carry * P(i) == Val(was[..i]) * Power(2, s)
      invariant forall k | i <= k < |was| :: now[k] == was[k]
    {
      ShiftLimb(was, now, i, s, carry);
      var c := now[i] / Power(2, 32 - s);
      now := now[i := (now[i] * Power(2, s)) % B + carry];
      carry := c;
      i := i + 1;
    }
    assert now[..i] == now && was[..i] == was;
  }

  // ------------------------------------------------------------------ squaring

  /** One column of the square: its digit, and the carry. */
  lemma ColumnStep(done: nat, col: nat, sum: nat, carry: nat, total: nat, k: nat, next: nat)
    requires done + carry * P(k) == total && sum == carry + col && next == total + col * P(k)
    ensures done + (sum % B) * P(k) + (sum / B) * P(k + 1) == next
  {
    Carry(done, sum, k);
    MulAdd(carry, col, P(k));
  }

  /** The column sums as the source forms them: low columns from the left end, high ones from the right. */
  method SumColumn(n: Limbs, k: nat, carry: nat) returns (sum: nat)
    requires n != [] && LimbsOk(n) && k < 2 * |n|
    ensures sum == carry + Column(n, k, |n|)
  {
    hide Column, LimbsOk;
    sum := carry;
    if k < |n| {
      var i: nat, j: int := 0, k;
      NoTerms(n, k);
      while j >= 0
        invariant i + j == k && j >= -1 && i <= |n| && sum == carry + Column(n, k, i)
      {
        ColumnTerm(n, k, i);
        sum := sum + n[i] * n[j];
        i, j := i + 1, j - 1;
      }
      ColumnEnds(n, k, i, |n|);
    } else {
      var j: int := |n| - 1;
      var i: nat := k - j;
      ColumnStarts(n, k, i);
      while i < |n|
        invariant i + j == k && i <= |n| && sum == carry + Column(n, k, i)
        decreases |n| - i
      {
        ColumnTerm(n, k, i);
        sum := sum + n[i] * n[j];
        i, j := i + 1, j - 1;
      }
    }
  }

  lemma NoTerms(n: Limbs, k: nat)
    ensures Column(n, k, 0) == 0
  {
  }

  lemma ColumnTerm(n: Limbs, k: nat, i: nat)
    requires i < |n|
    ensures Column(n, k, i + 1) == Column(n, k, i) + (if 0 <= k - i < |n| then n[i] * n[k - i] else 0)
  {
  }

  /** The sums stay inside 128 bits for any number of limbs an int can count. */
  lemma ColumnFits(n: Limbs, k: nat, carry: nat)
    requires LimbsOk(n) && |n| <= INT_MAX && carry < B * B * B
    ensures carry + Column(n, k, |n|) < B * B * B * B && (carry + Column(n, k, |n|)) / B < B * B * B
  {
    ColumnBound(n, k, |n|);
    MulMono(|n|, INT_MAX, (B - 1) * (B - 1));
    hide Column;
    DivMod(carry + Column(n, k, |n|), B);
  }

  method SquareLimbs(n: Limbs) returns (r: Limbs)
    requires n != [] && LimbsOk(n) && |n| <= INT_MAX
    ensures |r| == 2 * |n| && LimbsOk(r) && Val(r) == Val(n) * Val(n)
  {
    hide Val, P, Power, Column, Columns;
    r := [];
    var sum: nat := 0;
    var k: nat := 0;
    NoLimbs([]);
    assert r == [][..0];
    FirstColumn(n);
    while k < 2 * |n|
      invariant k <= 2 * |n| && |r| == k && LimbsOk(r) && sum < B * B * B
      invariant Val(r) + sum * P(k) == Columns(n, k, |n|)
    {
      ColumnFits(n, k, sum);
      var total := SumColumn(n, k, sum);
      ColumnStep(Val(r), Column(n, k, |n|), total, sum, Columns(n, k, |n|), k, Columns(n, k + 1, |n|)) by { NextColumn(n, k); }
      ValSnoc(r, total % B);
      r := r + [total % B];
      sum := total / B;
      k := k + 1;
    }
    ColumnsAre(n, |n|);
    assert n[..|n|] == n;
    NothingLeft(n, r, sum);
  }

  lemma FirstColumn(n: Limbs)
    ensures Columns(n, 0, |n|) == 0
  {
  }

  lemma NextColumn(n: Limbs, k: nat)
    ensures Columns(n, k + 1, |n|) == Columns(n, k, |n|) + Column(n, k, |n|) * P(k)
  {
    hide Column;
  }

  /** The last carry is nought: a square has at most twice the limbs. */
  lemma NothingLeft(n: Limbs, r: Limbs, sum: nat)
    requires LimbsOk(n) && |r| == 2 * |n| && Val(r) + sum * P(|r|) == Val(n) * Val(n)
    ensures sum == 0
  {
    hide Val, P, Power;
    ValBound(n);
    PowerAdds(B, |n|, |n|);
    PIs(|n|);
    PIs(2 * |n|);
    MulMono(Val(n), P(|n|), Val(n));
    MulMono(Val(n), P(|n|), P(|n|));
    MulAdd(P(|n|), Val(n), 0);
    if Val(n) > 0 { MulStrict(Val(n), P(|n|), Val(n)); }
    if sum > 0 { MulMono(1, sum, P(|r|)); }
  }

  lemma PIs(k: nat)
    ensures P(k) == Power(B, k) && P(k) > 0
  {
  }

  class BigInt {
    var bigits: Limbs
    var exp: nat

    function Get(): Num
      reads this
    {
      Num(bigits, exp)
    }

    /** assign(uint64_t). */
    method Assign(value: nat)
      requires value < B * B
      modifies this
      ensures Get().Value() == value && LimbsOk(bigits) && (value > 0 ==> Get().Ok()) && exp == 0
    {
      var n := value;
      bigits := [n % B];
      n := n / B;
      QuotientBound(value, B);
      DivMod(value, B);
      if n != 0 { bigits := bigits + [n % B]; }
      exp := 0;
      PStep(0);
      assert P(0) == 1 && P(1) == B;
      assert Val([value % B]) == value % B by { ValSnoc([], value % B); assert [] + [value % B] == [value % B]; }
      if n != 0 { ValSnoc([value % B], n % B); }
    }

    /** multiply(uint32_t): no carry is lost, and the top limb stays nonzero. */
    method Multiply(value: nat)
      requires Get().Ok() && 0 < value < B
      modifies this`bigits
      ensures Get().Ok() && Get().Value() == old(Get().Value()) * value
    {
      var was, carry := bigits, 0;
      bigits, carry := MultiplyLimbs(was, value);
      NormalAfter(was, bigits, carry, value);
      if carry != 0 { bigits := bigits + [carry]; }
      TimesPower(Val(was), value, exp);
    }

    /** operator<<=: whole limbs go to the exponent, the rest through the limbs. */
    method ShiftLeft(shift: nat)
      requires Get().Ok()
      modifies this
      ensures Get().Ok() && Get().Value() == old(Get().Value()) * Power(2, shift)
    {
      hide Power;
      var was, carry := bigits, 0;
      ShiftSplits(Val(was), exp, shift);
      exp := exp + shift / 32;
      var s := shift % 32;
      if s == 0 { return; }
      bigits, carry := ShiftLimbs(was, s);
      PowerBelowB(s);
      NormalAfter(was, bigits, carry, Power(2, s));
      if carry != 0 { bigits := bigits + [carry]; }
    }

    /** square, in place of the limbs it multiplies. */
    method Square()
      requires Get().Ok() && |bigits| <= INT_MAX
      modifies this
      ensures Get().Ok() && Get().Value() == old(Get().Value()) * old(Get().Value()) && exp == 2 * old(exp)
    {
      hide Power;
      ghost var was := Get();
      var n := bigits;
      bigits := SquareLimbs(n);
      SquarePositive(n);
      RemoveLeadingZeros();
      exp := exp * 2;
      SquareValue(Val(n), was.exp);
    }

    /** remove_leading_zeros: at least one limb stays. */
    method RemoveLeadingZeros()
      requires bigits != [] && LimbsOk(bigits)
      modifies this`bigits
      ensures bigits != [] && LimbsOk(bigits) && Val(bigits) == old(Val(bigits)) && (Val(bigits) > 0 ==> Normal(bigits))
      ensures Val(bigits) == 0 ==> bigits == [0]
      ensures |bigits| <= |old(bigits)|
    {
      ghost var was := bigits;
      var num := |bigits| - 1;
      assert was[..num + 1] == was;
      while num > 0 && bigits[num] == 0
        invariant 0 <= num < |bigits| && Val(bigits[..num + 1]) == Val(was) && bigits == was
      {
        ValStep(bigits, num);
        num := num - 1;
      }
      bigits := bigits[..num + 1];
      if num == 0 {
        assert bigits == [] + [bigits[0]];
        ValSnoc([], bigits[0]);
      } else {
        NormalBound(bigits);
        PStep(num);
      }
    }

    /** assign_pow10, for exponents below 2^30 (see BitmaskFits): five to the power by squaring and multiplying, then the twos by shifting. */
    method AssignPow10(e: nat)
      requires e < 0x4000_0000
      modifies this
      ensures Get().Ok() && Get().Value() == Power(10, e)
    {
      hide Power;
      if e == 0 {
        Assign(1);
        PowerOf(10);
        return;
      }
      var bitmask: nat := 1;
      ghost var t: nat := 0;
      PowerOf(2);
      while e >= bitmask
        invariant bitmask == Power(2, t) && (t > 0 ==> Power(2, t - 1) <= e)
        decreases 2 * e - bitmask
      {
        bitmask := bitmask * 2;
        t := t + 1;
        PowerNext(2, t);
      }
      bitmask := bitmask / 2;
      t := t - 1;
      PowerNext(2, t + 1);
      Assign(5);
      PowerOf(5);
      DivUnique(e, bitmask, 1, e - bitmask);
      bitmask := bitmask / 2;
      ghost var m: nat := 1;
      HalfPower(t);
      while bitmask != 0
        invariant bitmask == (if t == 0 then 0 else Power(2, t - 1)) && m == e / Power(2, t) && m <= e
        invariant Get().Ok() && exp == 0 && Get().Value() == Power(5, m)
        decreases t
      {
        LimbsFew(Get(), m);
        BitBelow(e, t);
        Square();
        PowerAdds(5, m, m);
        m := m + m;
        if e / bitmask % 2 != 0 {
          Multiply(5);
          m := m + 1;
          PowerNext(5, m);
        }
        t := t - 1;
        HalfPower(t);
        bitmask := bitmask / 2;
        DivBelow(e, Power(2, t));
      }
      PowerOf(2);
      assert m == e;
      ShiftLeft(e);
      PowerProduct(5, 2, e);
    }

    /** subtract_aligned. The last loop takes a borrow from one limb and no further, so the difference is right just when
        nothing is borrowed from above the subtrahend or the limb there is not nought. */
    method SubtractAligned(other: Num)
      requires Get().Ok() && other.Ok() && exp <= other.exp && Get().Value() >= other.Value()
      modifies this`bigits
      ensures other.exp - exp + |other.limbs| <= |old(bigits)|
      ensures Get().Value() == old(Get().Value()) - other.Value() <==> Borrowable(old(bigits), other.limbs, other.exp - exp)
      ensures bigits != [] && LimbsOk(bigits) && (Val(bigits) > 0 ==> Get().Ok()) && (Val(bigits) == 0 ==> bigits == [0])
    {
      hide Val, P, Power, Borrowable, Normal, Num.Value;
      var was, d := bigits, other.exp - exp;
      SizesReach(Get(), other);
      ValueIs(Get());
      ValueIs(other);
      LimbsAreOk(Get());
      LimbsAreOk(other);
      SomeLimbs(Get());
      assert exp + d == other.exp;
      Difference(Val(was), Val(other.limbs), d, exp, 0);
      var borrow;
      bigits, borrow := SubtractLimbs(was, other.limbs, d);
      bigits := SpendBorrow(bigits, d + |other.limbs|, borrow);
      Difference(Val(was), Val(other.limbs), d, exp, Val(bigits));
      RemoveLeadingZeros();
      ValueIs(Get());
      OkIs(Get());
    }

    /** divmod_assign, for a quotient an int can hold. Right unless the operands are equal and the divisor has more limbs:
        then compare takes the dividend to be the smaller. */
    method DivmodAssign(divisor: Num) returns (quotient: nat)
      requires Get().Ok() && divisor.Ok() && Get().Value() < (INT_MAX + 1) * divisor.Value()
      modifies this
      ensures old(Get().Value()) == quotient * divisor.Value() + Get().Value() && quotient <= INT_MAX
      ensures Get().Value() < divisor.Value() <==>
        !(old(Get().Value()) == divisor.Value() && |old(bigits)| < |divisor.limbs|)
    {
      hide Val, P, Power, Num.Value, Borrowable, Normal, Num.Ok;
      var c := Compare(Get(), divisor);
      if c < 0 { return 0; }
      ghost var dividend := Get().Value();
      if exp > divisor.exp {
        var n := exp - divisor.exp;
        PadValue(Get(), n);
        bigits := seq(n, i => 0) + bigits;
        exp := divisor.exp;
      }
      quotient := 0;
      ghost var v := divisor.Value();
      DivisorPositive(divisor);
      while true
        invariant Get().Ok() && exp <= divisor.exp && v <= Get().Value() && dividend == quotient * v + Get().Value()
        invariant dividend < (INT_MAX + 1) * v
        decreases Get().Value()
      {
        QuotientFits(Get(), divisor, dividend, quotient);
        SubtractAligned(divisor);
        MulAdd(quotient, 1, v);
        quotient := quotient + 1;
        ZeroOrOk(Get());
        c := Compare(Get(), divisor);
        SameSizes(Get(), divisor);
        if c < 0 { break; }
      }
    }
  }

  /** Equal operands of which the divisor has more limbs leave the whole divisor as remainder. */
  method DivmodCanErr(x: BigInt) returns (quotient: nat)
    requires x.bigits == [1] && x.exp == 1
    modifies x
    ensures quotient == 0 && x.Get().Value() == Num([0, 1], 0).Value() == old(x.Get().Value())
  {
    EqualButUnlike();
    var d := Num([0, 1], 0);
    DivisorPositive(d);
    quotient := x.DivmodAssign(d);
    hide Num.Value;
    if quotient > 0 { MulMono(1, quotient, d.Value()); }
  }

  lemma SquarePositive(n: Limbs)
    requires Normal(n)
    ensures Val(n) * Val(n) > 0
  {
    NormalBound(n);
    PStep(|n| - 1);
    hide Val, P, Power;
    MulStrict(0, Val(n), Val(n));
  }

  lemma SquareValue(v: nat, e: nat)
    ensures (v * v) * P(e * 2) == (v * P(e)) * (v * P(e))
  {
    hide Power;
    PIs(e);
    PIs(e * 2);
    PowerAdds(B, e, e);
    assert e + e == e * 2;
    var p := P(e);
    MulAssoc(v, p, v * p);
    MulAssoc(p, v, p);
    MulAssoc(v, v, p * p);
    MulAssoc(v, p, p);
    hide P;
    MulAdd(v, p * (v * p), 0);
    assert p * (v * p) == v * (p * p);
  }

  // ------------------------------------------------------------------ powers

  lemma PowerOf(b: nat)
    ensures Power(b, 0) == 1 && Power(b, 1) == b
  {
  }

  lemma PowerNext(b: nat, k: nat)
    requires k > 0
    ensures Power(b, k) == b * Power(b, k - 1)
  {
  }

  lemma {:induction false} PowerOfTwoGrows(i: nat, j: nat)
    requires i <= j
    ensures Power(2, i) <= Power(2, j)
    decreases j - i
  {
    if i < j { PowerOfTwoGrows(i, j - 1); }
  }

  /** The doubled bitmask outgrows the exponent before it outgrows an int exactly for exponents below 2^30. */
  lemma BitmaskFits(e: nat)
    ensures (exists t: nat :: e < Power(2, t) <= INT_MAX) <==> e < 0x4000_0000
  {
    assert Power(2, 8) == 0x100;
    assert Power(2, 16) == 0x1_0000;
    assert Power(2, 24) == 0x100_0000;
    assert Power(2, 30) == 0x4000_0000;
    if t: nat :| e < Power(2, t) <= INT_MAX {
      if t > 30 { PowerOfTwoGrows(31, t); }
      PowerOfTwoGrows(if t < 30 then t else 30, 30);
    }
  }

  lemma HalfPower(t: nat)
    ensures Power(2, t) / 2 == if t == 0 then 0 else Power(2, t - 1)
  {
    if t == 0 { PowerOf(2); } else { PowerNext(2, t); }
  }

  lemma DivBelow(e: nat, p: nat)
    requires p > 0
    ensures e / p <= e
  {
    DivMod(e, p);
    MulMono(1, p, e / p);
  }

  lemma BitBelow(e: nat, t: nat)
    requires t > 0
    ensures e / Power(2, t - 1) == 2 * (e / Power(2, t)) + e / Power(2, t - 1) % 2
  {
    PowerNext(2, t);
    hide Power;
    var (p, q) := (Power(2, t - 1), e / Power(2, t - 1));
    DivMod(e, p);
    DivMod(q, 2);
    var r := q % 2 * p + e % p;
    MulAdd(q / 2 * 2, q % 2, p);
    MulAssoc(q / 2, 2, p);
    MulMono(q % 2, 1, p);
    DivUnique(e, 2 * p, q / 2, r);
  }

  lemma {:induction false} FiveBelowB(m: nat)
    ensures Power(5, m) <= P(m)
  {
    if m > 0 {
      FiveBelowB(m - 1);
      PStep(m - 1);
      MulMono(Power(5, m - 1), P(m - 1), 5);
      MulMono(5, B, P(m - 1));
    }
  }

  lemma LimbsFew(a: Num, m: nat)
    requires a.Ok() && a.exp == 0 && a.Value() == Power(5, m)
    ensures |a.limbs| <= m + 1
  {
    SizeBound(a);
    FiveBelowB(m);
    if |a.limbs| > m + 1 {
      PGrows(m + 1, |a.limbs| - 1);
      PStep(m);
    }
  }

  // ------------------------------------------------------------------ division

  /** Noughts below for a lower exponent. */
  lemma PadValue(a: Num, n: nat)
    requires n <= a.exp && a.Ok()
    ensures var b := Num(seq(n, i => 0) + a.limbs, a.exp - n); b.Value() == a.Value() && b.Ok()
  {
    ValShifted(a.limbs, n);
    PowerAdds(B, n, a.exp - n);
    MulAssoc(Val(a.limbs), P(n), P(a.exp - n));
  }

  lemma ValueIs(a: Num)
    ensures a.Value() == Val(a.limbs) * P(a.exp)
  {
  }

  lemma OkIs(a: Num)
    ensures a.Ok() == Normal(a.limbs)
  {
  }

  lemma DivisorPositive(d: Num)
    requires d.Ok()
    ensures d.Value() > 0
  {
    SizeBound(d);
    PStep(d.Size() - 1);
  }

  lemma ZeroOrOk(a: Num)
    requires a.limbs != [] && (Val(a.limbs) > 0 ==> a.Ok()) && (Val(a.limbs) == 0 ==> a.limbs == [0])
    ensures a.Ok() || a.limbs == [0]
  {
  }

  /** With no lower exponent than the other, an equal number has at least as many limbs. */
  lemma SameSizes(a: Num, d: Num)
    requires (a.Ok() || a.limbs == [0]) && d.Ok() && a.exp <= d.exp
    ensures a.Value() == d.Value() ==> |a.limbs| >= |d.limbs|
    ensures a.Value() >= d.Value() ==> a.Ok()
  {
    if !a.Ok() {
      ZeroIsLess(a, d);
    } else if a.Size() < d.Size() {
      SizeDecides(a, d);
    }
  }

  /** Less than 2^32 times the divisor is at most one limb longer. */
  lemma QuotientSize(a: Num, d: Num)
    requires a.Ok() && d.Ok() && a.Value() < B * d.Value()
    ensures a.Size() <= d.Size() + 1
  {
    hide Num.Value;
    SizeBound(a);
    SizeBound(d);
    PStep(d.Size());
    hide P;
    MulMono(d.Value(), P(d.Size()), B);
    MulAdd(B, P(d.Size()), 0);
    MulAdd(B, d.Value(), 0);
    if a.Size() > d.Size() + 1 { PGrows(d.Size() + 1, a.Size() - 1); }
  }

  lemma LongEnough(a: Num, d: Num)
    requires a.Ok() && d.Ok() && a.exp <= d.exp && d.Value() <= a.Value() && a.Size() <= d.Size() + 1
    ensures d.exp - a.exp + |d.limbs| <= |a.limbs| && Borrowable(a.limbs, d.limbs, d.exp - a.exp)
  {
    SizesReach(a, d);
    var i := d.exp - a.exp + |d.limbs|;
    if |a.limbs| == i {
      assert a.limbs[..i] == a.limbs;
      hide Val, P, Power;
      Difference(Val(a.limbs), Val(d.limbs), d.exp - a.exp, a.exp, 0);
      assert d.exp == a.exp + (d.exp - a.exp);
    }
  }

  /** A quotient that fits an int leaves the dividend at most one limb above the divisor, so the subtraction is right. */
  lemma QuotientFits(a: Num, d: Num, dividend: nat, quotient: nat)
    requires a.Ok() && d.Ok() && a.exp <= d.exp && d.Value() <= a.Value()
    requires dividend == quotient * d.Value() + a.Value() && dividend < (INT_MAX + 1) * d.Value()
    ensures quotient < INT_MAX && d.exp - a.exp + |d.limbs| <= |a.limbs| && Borrowable(a.limbs, d.limbs, d.exp - a.exp)
  {
    hide Val, P, Power, Borrowable, Num.Value, Normal;
    var v := d.Value();
    if quotient >= INT_MAX {
      MulMono(INT_MAX, quotient, v);
      MulAdd(INT_MAX, 1, v);
    }
    MulMono(INT_MAX + 1, B, v);
    MulMono(0, quotient, v);
    QuotientSize(a, d);
    LongEnough(a, d);
  }

  // ------------------------------------------------------------------ subtraction

  /** Nothing is borrowed from above the subtrahend, or the limb there can lend. */
  predicate Borrowable(was: Limbs, other: Limbs, d: nat)
    requires d + |other| <= |was|
  {
    var i := d + |other|;
    Val(was[..i]) >= Val(other) * P(d) || (i < |was| && was[i] != 0)
  }

  /** Limbs [0, 0, 1] less limbs [1] is not Borrowable, so by SubtractAligned's equivalence the difference comes out
      wrong: a limb must be borrowed from the middle one, which is nought, and no borrow is passed on. */
  lemma SubtractionCanFail()
    ensures var a, b := Num([0, 0, 1], 0), Num([1], 0);
      a.Ok() && b.Ok() && a.Value() >= b.Value() && !Borrowable(a.limbs, b.limbs, 0)
  {
    var l: Limbs := [0, 0, 1];
    var one: Limbs := [1];
    assert l[..1] == [0] && l[..2] == [0, 0] && [0, 0][..1] == [0];
    assert P(0) == 1 && P(1) == B && P(2) == B * B;
    assert Val(one) == 1 by { assert one == [] + [1]; ValSnoc([], 1); }
    assert Val([0]) == 0 by { assert [0] == [] + [0]; ValSnoc([], 0); }
    assert Val([0, 0]) == 0 by { assert [0, 0] == [0] + [0]; ValSnoc([0], 0); }
    assert Val(l) == B * B by { assert l == [0, 0] + [1]; ValSnoc([0, 0], 1); }
  }

  lemma {:induction false} ValSplit(l: Limbs, i: nat)
    requires i <= |l|
    ensures Val(l) == Val(l[..i]) + Val(l[i..]) * P(i)
  {
    if i == |l| {
      assert l[..i] == l && l[i..] == [];
    } else {
      var init, x := l[..|l| - 1], l[|l| - 1];
      assert init[..i] == l[..i] && l[i..] == init[i..] + [x];
      ValSplit(init, i);
      ValSnoc(init[i..], x);
      PowerAdds(B, |l| - 1 - i, i);
      MulAdd(Val(init[i..]), x * P(|l| - 1 - i), P(i));
      MulAssoc(x, P(|l| - 1 - i), P(i));
    }
  }

  lemma ValUpdate(l: Limbs, i: nat, x: nat)
    requires i < |l|
    ensures Val(l[i := x]) == Val(l) + (x - l[i]) * P(i)
  {
    var m := l[i := x];
    assert m[..i] == l[..i] && m[i + 1..] == l[i + 1..];
    ValSplit(m, i + 1);
    ValSplit(l, i + 1);
    ValStep(m, i);
    ValStep(l, i);
    MulSub(x, l[i], P(i));
  }

  lemma MulSub(a: int, b: int, c: int)
    ensures (a - b) * c == a * c - b * c
  {
  }

  /** A subtrahend no greater fits under the minuend, limb for limb. */
  lemma SizesReach(a: Num, b: Num)
    requires a.Ok() && b.Ok() && a.exp <= b.exp && a.Value() >= b.Value()
    ensures b.exp - a.exp + |b.limbs| <= |a.limbs|
  {
    if a.Size() < b.Size() { SizeDecides(a, b); }
  }

  lemma SubtractTurn(was: Limbs, now: Limbs, other: Limbs, d: nat, j: nat, borrow: nat)
    requires j < |other| && d + j < |was| == |now| && borrow <= 1 && now[d + j] == was[d + j] < B && other[j] < B
    requires Val(now[..d + j]) - borrow * P(d + j) == Val(was[..d + j]) - Val(other[..j]) * P(d)
    ensures var result := now[d + j] - other[j] - borrow;
      var next := if result < 0 then 1 else 0;
      var limb := result + next * B;
      0 <= limb < B &&
      Val(now[d + j := limb][..d + j + 1]) - next * P(d + j + 1) == Val(was[..d + j + 1]) - Val(other[..j + 1]) * P(d)
  {
    hide Val, Power;
    var i := d + j;
    var result := now[i] - other[j] - borrow;
    var next := if result < 0 then 1 else 0;
    var limb := result + next * B;
    var m := now[i := limb];
    assert m[..i] == now[..i];
    ValStep(m, i);
    ValStep(was, i);
    ValStep(other, j);
    PStep(i);
    PowerAdds(B, j, d);
    assert P(i) == P(j) * P(d);
    MulAdd(Val(other[..j]), other[j] * P(j), P(d));
    MulAssoc(other[j], P(j), P(d));
    MulSub(now[i] + next * B, other[j] + borrow, P(i));
    MulAdd(now[i], next * B, P(i));
    MulAdd(other[j], borrow, P(i));
    MulAssoc(next, B, P(i));
  }

  lemma NoLimbsYet(was: Limbs, other: Limbs, d: nat)
    requires d <= |was|
    ensures Val(was[..d]) - 0 * P(d) == Val(was[..d]) - Val(other[..0]) * P(d)
  {
    assert other[..0] == [];
  }

  /** The first loop: limb by limb, with a borrow of at most one. */
  method SubtractLimbs(was: Limbs, other: Limbs, d: nat) returns (now: Limbs, borrow: nat)
    requires LimbsOk(was) && LimbsOk(other) && d + |other| <= |was|
    requires Val(was) >= Val(other) * P(d)
    ensures |now| == |was| && LimbsOk(now) && borrow <= 1 && (borrow > 0 ==> d + |other| < |was|)
    ensures Val(now) - borrow * P(d + |other|) == Val(was) - Val(other) * P(d)
    ensures Borrowable(was, other, d) <==> borrow == 0 || (d + |other| < |now| && now[d + |other|] != 0)
  {
    hide Val, P, Power, Borrowable;
    now, borrow := was, 0;
    var i: nat, j: nat := d, 0;
    NoLimbsYet(was, other, d);
    while j != |other|
      invariant j <= |other| && i == d + j && |now| == |was| && LimbsOk(now) && borrow <= 1
      invariant Val(now[..i]) - borrow * P(i) == Val(was[..i]) - Val(other[..j]) * P(d)
      invariant forall k | i <= k < |was| :: now[k] == was[k]
      decreases |other| - j
    {
      SubtractTurn(was, now, other, d, j, borrow);
      var result := now[i] - other[j] - borrow;
      borrow := if result < 0 then 1 else 0;
      now := now[i := result + borrow * B];
      i, j := i + 1, j + 1;
    }
    assert other[..j] == other;
    BorrowOut(was, now, other, d, borrow);
  }

  lemma BorrowOut(was: Limbs, now: Limbs, other: Limbs, d: nat, borrow: nat)
    requires LimbsOk(was) && LimbsOk(now) && d + |other| <= |was| == |now| && borrow <= 1 && Val(was) >= Val(other) * P(d)
    requires var i := d + |other|;
      Val(now[..i]) - borrow * P(i) == Val(was[..i]) - Val(other) * P(d) && forall k | i <= k < |was| :: now[k] == was[k]
    ensures Val(now) - borrow * P(d + |other|) == Val(was) - Val(other) * P(d)
    ensures borrow > 0 ==> d + |other| < |was|
    ensures Borrowable(was, other, d) <==> borrow == 0 || (d + |other| < |now| && now[d + |other|] != 0)
  {
    hide Val, P, Power;
    var i := d + |other|;
    ValSplit(was, i);
    ValSplit(now, i);
    assert now[i..] == was[i..];
    ValBound(now[..i]);
    PStep(i);
    if i == |was| { assert was[..i] == was; }
  }

  /** The last loop, which stays at one limb: a nought there lends twice over and stays wrong by a whole limb less one. */
  method SpendBorrow(first: Limbs, i: nat, borrow0: nat) returns (now: Limbs)
    requires LimbsOk(first) && borrow0 <= 1 && (borrow0 > 0 ==> i < |first|)
    ensures |now| == |first| && LimbsOk(now)
    ensures Val(now) == Val(first) - borrow0 * P(i) <==> borrow0 == 0 || first[i] != 0
  {
    hide Val, P, Power;
    now := first;
    var borrow := borrow0;
    while borrow > 0
      invariant |now| == |first| && LimbsOk(now) && borrow <= 1
      invariant borrow0 == 0 ==> now == first && borrow == 0
      invariant borrow0 == 1 ==> i < |first|
      invariant borrow0 == 1 ==>
        ((borrow == 1 && now == first) || (borrow == 1 && first[i] == 0 && now == first[i := B - 1]) ||
         (borrow == 0 && now == first[i := if first[i] > 0 then first[i] - 1 else B - 2]))
      decreases borrow + (if borrow > 0 && i < |now| && now[i] == 0 then 1 else 0)
    {
      var result := now[i] - borrow;
      borrow := if result < 0 then 1 else 0;
      now := now[i := result + borrow * B];
    }
    if borrow0 == 1 {
      ValUpdate(first, i, now[i]);
      assert now == first[i := now[i]];
      PStep(i);
      if first[i] == 0 { MulAdd(B - 2, 1, P(i)); MulMono(1, B - 1, P(i)); }
    }
  }

  /** Equal below, equal above: a difference of limbs is a difference of values. */
  lemma Difference(was: nat, other: nat, d: nat, e: nat, now: nat)
    ensures now * P(e) == was * P(e) - other * P(e + d) <==> now == was - other * P(d)
    ensures was * P(e) >= other * P(e + d) ==> was >= other * P(d)
  {
    PowerAdds(B, d, e);
    PStep(e);
    hide P, Power;
    var o := other * P(d);
    assert other * P(e + d) == o * P(e) by { MulAssoc(other, P(d), P(e)); PSum(d, e); }
    MulSub(was, o, P(e));
    if now < was - o { MulStrictInt(now, was - o, P(e)); }
    if was - o < now { MulStrictInt(was - o, now, P(e)); }
    if was < o { MulStrictInt(was, o, P(e)); }
  }

  lemma PSum(d: nat, e: nat)
    ensures P(e + d) == P(d) * P(e)
  {
    PowerAdds(B, d, e);
  }

  lemma MulStrictInt(a: int, b: int, c: nat)
    requires a < b && c > 0
    ensures a * c < b * c
  {
    MulSub(b, a, c);
    MulMono(1, b - a, c);
  }

  lemma PowerBelowB(s: nat)
    requires s < 32
    ensures 0 < Power(2, s) < B
  {
    PowerPositive(2, s);
    PowerPositive(2, 32 - s);
    PowerAdds(2, s, 32 - s);
    TwoToThe32();
    TwoOrMore(32 - s);
    MulMono(2, Power(2, 32 - s), Power(2, s));
    hide Power;
    MulAdd(Power(2, s), Power(2, 32 - s), 0);
  }

  lemma TwoOrMore(k: nat)
    requires k > 0
    ensures Power(2, k) >= 2
  {
    PowerPositive(2, k - 1);
  }

  /** Shifting by whole limbs is the exponent's business. */
  lemma ShiftSplits(v: nat, e: nat, shift: nat)
    ensures v * P(e + shift / 32) * Power(2, shift % 32) == v * P(e) * Power(2, shift)
    ensures (v * Power(2, shift % 32)) * P(e + shift / 32) == v * P(e) * Power(2, shift)
    ensures shift % 32 == 0 ==> v * P(e + shift / 32) == v * P(e) * Power(2, shift)
  {
    var (n, s) := (shift / 32, shift % 32);
    hide Power;
    LimbPower(n);
    assert shift == 32 * n + s;
    PowerAdds(2, 32 * n, s);
    PowerAdds(B, e, n);
    MulAssoc(v, P(e), P(n));
    MulAssoc(v * P(e), P(n), Power(2, s));
    TimesPower(v, Power(2, s), e + n);
    if s == 0 { PowerZero(); }
  }

  lemma PowerZero()
    ensures Power(2, 0) == 1
  {
  }

  lemma {:induction false} LimbPower(n: nat)
    ensures Power(2, 32 * n) == P(n)
  {
    if n > 0 {
      LimbPower(n - 1);
      PowerAdds(2, 32, 32 * (n - 1));
      TwoToThe32();
    }
  }
}
