/** compare and add_compare: from the top limb down. */
module BigCompare {
  import opened BigLimbs

  function Sign(n: int): int { if n > 0 then 1 else if n < 0 then -1 else 0 }

  /** get_bigit: the limb of weight i, nought outside the number. */
  function Digit(a: Num, i: nat): (r: nat)
    ensures LimbsOk(a.limbs) ==> r < B
  {
    if a.exp <= i < a.Size() then a.limbs[i - a.exp] else 0
  }

  /** The limbs of weight i and up, as a number. */
  function Top(a: Num, i: nat): nat
    decreases a.Size() - i
  {
    if i >= a.Size() then 0 else Top(a, i + 1) * B + Digit(a, i)
  }

  /** The limbs below weight i. */
  function Low(a: Num, i: nat): nat {
    if i == 0 then 0 else Low(a, i - 1) + Digit(a, i - 1) * P(i - 1)
  }

  lemma {:induction false} LowBound(a: Num, i: nat)
    requires LimbsOk(a.limbs)
    ensures Low(a, i) < P(i)
  {
    if i > 0 {
      LowBound(a, i - 1);
      PStep(i - 1);
      MulMono(Digit(a, i - 1), B - 1, P(i - 1));
      MulAdd(B - 1, 1, P(i - 1));
    }
  }

  lemma {:induction false} LowIs(a: Num, i: nat)
    requires a.exp <= i <= a.Size()
    ensures Low(a, i) == Val(a.limbs[..i - a.exp]) * P(a.exp)
  {
    if i == a.exp {
      LowZero(a, i);
      assert a.limbs[..0] == [];
    } else {
      var k := i - 1 - a.exp;
      LowIs(a, i - 1);
      ValStep(a.limbs, k);
      PowerAdds(B, k, a.exp);
      MulAdd(Val(a.limbs[..k]), a.limbs[k] * P(k), P(a.exp));
      MulAssoc(a.limbs[k], P(k), P(a.exp));
    }
  }

  lemma {:induction false} LowZero(a: Num, i: nat)
    requires i <= a.exp
    ensures Low(a, i) == 0
  {
    if i > 0 { LowZero(a, i - 1); }
  }

  lemma {:induction false} LowRest(a: Num, i: nat)
    requires i >= a.Size()
    ensures Low(a, i) == a.Value()
    decreases i
  {
    if i == a.Size() {
      LowIs(a, i);
      assert a.limbs[..|a.limbs|] == a.limbs;
    } else {
      LowRest(a, i - 1);
    }
  }

  /** A number is its top and its bottom. */
  lemma {:induction false} Cut(a: Num, i: nat)
    ensures a.Value() == Top(a, i) * P(i) + Low(a, i)
    decreases a.Size() - i
  {
    if i >= a.Size() {
      LowRest(a, i);
    } else {
      Cut(a, i + 1);
      PStep(i);
      MulAssoc(Top(a, i + 1), B, P(i));
      MulAdd(Top(a, i + 1) * B, Digit(a, i), P(i));
    }
  }

  lemma SizeBound(a: Num)
    requires a.Ok()
    ensures a.Size() > 0 && P(a.Size() - 1) <= a.Value() < P(a.Size())
  {
    NormalBound(a.limbs);
    PowerAdds(B, |a.limbs| - 1, a.exp);
    PowerAdds(B, |a.limbs|, a.exp);
    MulMono(P(|a.limbs| - 1), Val(a.limbs), P(a.exp));
    MulStrict(Val(a.limbs), P(|a.limbs|), P(a.exp));
  }

  lemma {:induction false} PGrows(i: nat, j: nat)
    requires i <= j
    ensures P(i) <= P(j)
    decreases j - i
  {
    if i < j {
      PGrows(i, j - 1);
      PStep(j - 1);
      MulMono(1, B, P(j - 1));
    }
  }

  lemma SizeDecides(a: Num, b: Num)
    requires a.Ok() && b.Ok() && a.Size() < b.Size()
    ensures a.Value() < b.Value()
  {
    SizeBound(a);
    SizeBound(b);
    PGrows(a.Size(), b.Size() - 1);
  }

  /** The first difference from the top decides. */
  lemma TopDecides(a: Num, b: Num, i: nat)
    requires LimbsOk(a.limbs) && LimbsOk(b.limbs) && Top(a, i + 1) == Top(b, i + 1) && Digit(a, i) < Digit(b, i)
    requires i < a.Size() && i < b.Size()
    ensures a.Value() < b.Value()
  {
    Cut(a, i);
    Cut(b, i);
    LowBound(a, i);
    MulStrict(Top(a, i), Top(b, i), P(i));
  }

  lemma ZeroIsLess(a: Num, b: Num)
    requires a.limbs == [0] && b.Ok() && a.exp <= b.exp
    ensures a.Value() < b.Value() && a.Size() <= b.Size()
  {
    SizeBound(b);
    assert a.limbs == [] + [0];
    ValSnoc([], 0);
  }

  /** compare. Where one operand has limbs left over below the other, it is taken to be the greater even if they are all
      nought: the answer is right unless the values are equal and the limb counts are not. */
  method Compare(lhs: Num, rhs: Num) returns (r: int)
    requires (lhs.Ok() || (lhs.limbs == [0] && lhs.exp <= rhs.exp)) && rhs.Ok()
    ensures lhs.Value() != rhs.Value() ==> r == Sign(lhs.Value() - rhs.Value())
    ensures lhs.Value() == rhs.Value() ==> r == Sign(|lhs.limbs| - |rhs.limbs|)
  {
    hide Val, P, Power, Low, Num.Value;
    if lhs.Size() != rhs.Size() {
      if lhs.limbs == [0] { ZeroIsLess(lhs, rhs); }
      else if lhs.Size() < rhs.Size() { SizeDecides(lhs, rhs); } else { SizeDecides(rhs, lhs); }
      return if lhs.Size() > rhs.Size() then 1 else -1;
    }
    var i: int := |lhs.limbs| - 1;
    var j: int := |rhs.limbs| - 1;
    var end := i - j;
    if end < 0 { end := 0; }
    while i >= end
      invariant -1 <= i < |lhs.limbs| && -1 <= j < |rhs.limbs| && i >= end - 1
      invariant i + lhs.exp == j + rhs.exp && (i >= end ==> j >= 0)
      invariant Top(lhs, (i + 1 + lhs.exp) as nat) == Top(rhs, (i + 1 + lhs.exp) as nat)
    {
      var k: nat := i + lhs.exp;
      assert Digit(lhs, k) == lhs.limbs[i] && Digit(rhs, k) == rhs.limbs[j];
      if lhs.limbs[i] != rhs.limbs[j] {
        if lhs.limbs[i] < rhs.limbs[j] { TopDecides(lhs, rhs, k); } else { TopDecides(rhs, lhs, k); }
        return if lhs.limbs[i] > rhs.limbs[j] then 1 else -1;
      }
      i, j := i - 1, j - 1;
    }
    var k: nat := i + 1 + lhs.exp;
    if j == -1 { LeftOver(lhs, rhs, k); }
    if i == -1 { LeftOver(rhs, lhs, k); }
    if i != j { return if i > j then 1 else -1; }
    return 0;
  }

  /** B written with one limb at exponent 1 and with two at exponent 0: equal values that Compare tells apart. */
  lemma EqualButUnlike()
    ensures var a, b := Num([1], 1), Num([0, 1], 0);
      a.Ok() && b.Ok() && a.Value() == b.Value() && |a.limbs| < |b.limbs|
  {
    var one: Limbs := [1];
    var two: Limbs := [0, 1];
    assert P(0) == 1 && P(1) == B;
    assert one == [] + [1] && two == [0] + [1] && [0] == [] + [0];
    ValSnoc([], 1);
    ValSnoc([], 0);
    ValSnoc([0], 1);
    assert Val([0]) == 0 && Val(two) == B && Val(one) == 1;
  }

  /** So the comparison of these two says less, though they are equal. */
  method CompareCanErr() returns (r: int)
    ensures r == -1 && Num([1], 1).Value() == Num([0, 1], 0).Value()
  {
    EqualButUnlike();
    r := Compare(Num([1], 1), Num([0, 1], 0));
  }

  /** Tops agree down to where one number ends: the other is at least as large, by what it has below. */
  lemma LeftOver(a: Num, b: Num, k: nat)
    requires Top(a, k) == Top(b, k) && k <= b.exp
    ensures a.Value() >= b.Value()
  {
    Cut(a, k);
    Cut(b, k);
    LowZero(b, k);
  }

  // ------------------------------------------------------------------ add_compare

  /** Where the loop stands: how far the sum's top lags behind the right side's, in units of the next limb up. */
  predicate Lags(a: Num, b: Num, c: Num, i: nat, lag: nat) { Top(c, i) == Top(a, i) + Top(b, i) + lag }

  lemma LagCuts(a: Num, b: Num, c: Num, i: nat, lag: int)
    requires Top(c, i) == Top(a, i) + Top(b, i) + lag
    ensures c.Value() == a.Value() + b.Value() + lag * P(i) + Low(c, i) - Low(a, i) - Low(b, i)
  {
    hide Top, Low, P, Num.Value;
    Cut(a, i);
    Cut(b, i);
    Cut(c, i);
    MulAdd(Top(a, i) + Top(b, i), lag, P(i));
    MulAdd(Top(a, i), Top(b, i), P(i));
  }

  lemma TopStep(a: Num, i: nat)
    ensures Top(a, i) == Top(a, i + 1) * B + Digit(a, i)
  {
    if i >= a.Size() { assert Top(a, i) == 0 && Top(a, i + 1) == 0; }
  }

  /** Too far ahead, or too far behind: nothing below can make it up. */
  lemma Decided(a: Num, b: Num, c: Num, i: nat, lag: int)
    requires LimbsOk(a.limbs) && LimbsOk(b.limbs) && LimbsOk(c.limbs)
    requires Top(c, i) == Top(a, i) + Top(b, i) + lag
    ensures lag < 0 ==> a.Value() + b.Value() > c.Value()
    ensures lag > 1 ==> a.Value() + b.Value() < c.Value()
  {
    hide Top, Low, P, Num.Value;
    LagCuts(a, b, c, i, lag);
    LowBound(a, i);
    LowBound(b, i);
    LowBound(c, i);
    if lag < 0 { MulMono(1, -lag, P(i)); MulNeg(lag, P(i)); }
    if lag > 1 { MulMono(2, lag, P(i)); }
  }

  lemma MulNeg(a: int, b: int)
    ensures (-a) * b == -(a * b)
  {
  }

  lemma SizesDecide(a: Num, b: Num, c: Num)
    requires a.Ok() && b.Ok() && c.Ok()
    ensures (if a.Size() > b.Size() then a.Size() else b.Size()) + 1 < c.Size() ==> a.Value() + b.Value() < c.Value()
    ensures (if a.Size() > b.Size() then a.Size() else b.Size()) > c.Size() ==> a.Value() + b.Value() > c.Value()
  {
    hide Num.Value;
    SizeBound(a);
    SizeBound(b);
    SizeBound(c);
    var m := if a.Size() > b.Size() then a.Size() else b.Size();
    if m + 1 < c.Size() {
      PGrows(a.Size(), m);
      PGrows(b.Size(), m);
      PGrows(m + 1, c.Size() - 1);
      PStep(m);
      MulMono(2, B, P(m));
    }
    if m > c.Size() { PGrows(c.Size(), m - 1); }
  }

  lemma TopsOver(a: Num, b: Num, c: Num, n: nat)
    requires a.Size() <= n && b.Size() <= n && c.Size() <= n
    ensures Lags(a, b, c, n, 0)
  {
  }

  lemma BottomsOut(a: Num, b: Num, c: Num, i: nat, lag: nat)
    requires i <= a.exp && i <= b.exp && i <= c.exp && Lags(a, b, c, i, lag)
    ensures (lag > 0 ==> a.Value() + b.Value() < c.Value()) && (lag == 0 ==> a.Value() + b.Value() == c.Value())
  {
    hide Top, Num.Value, P;
    LagCuts(a, b, c, i, lag);
    LowZero(a, i);
    LowZero(b, i);
    LowZero(c, i);
    if lag > 0 { PPositive(i); MulMono(1, lag, P(i)); }
  }

  lemma PPositive(i: nat)
    ensures P(i) > 0
  {
  }

  lemma LagStep(a: Num, b: Num, c: Num, i: nat, lag: nat)
    requires Lags(a, b, c, i + 1, lag)
    ensures Top(c, i) == Top(a, i) + Top(b, i) + (Digit(c, i) + lag * B - Digit(a, i) - Digit(b, i))
  {
    TopStep(a, i);
    TopStep(b, i);
    TopStep(c, i);
    hide Top, Digit;
    MulAdd(Top(a, i + 1) + Top(b, i + 1), lag, B);
    MulAdd(Top(a, i + 1), Top(b, i + 1), B);
  }

  /** add_compare: exactly the sign of lhs1 + lhs2 - rhs, whatever the exponents, despite its early exits. */
  method AddCompare(lhs1: Num, lhs2: Num, rhs: Num) returns (r: int)
    requires lhs1.Ok() && lhs2.Ok() && rhs.Ok()
    ensures r == Sign(lhs1.Value() + lhs2.Value() - rhs.Value())
  {
    hide Val, P, Power, Low, Top, Lags, Num.Value, Normal;
    SizesDecide(lhs1, lhs2, rhs);
    var maxLhs := if lhs1.Size() > lhs2.Size() then lhs1.Size() else lhs2.Size();
    if maxLhs + 1 < rhs.Size() { return -1; }
    if maxLhs > rhs.Size() { return 1; }
    var borrow: nat := 0;
    var minExp := if lhs1.exp < lhs2.exp then lhs1.exp else lhs2.exp;
    if rhs.exp < minExp { minExp := rhs.exp; }
    var i: int := rhs.Size() - 1;
    TopsOver(lhs1, lhs2, rhs, rhs.Size());
    SomeLimbs(rhs);
    while i >= minExp
      invariant minExp - 1 <= i < rhs.Size() && (borrow == 0 || borrow == B)
      invariant Lags(lhs1, lhs2, rhs, (i + 1) as nat, if borrow == 0 then 0 else 1)
    {
      var sum := Digit(lhs1, i) + Digit(lhs2, i);
      var rhsBigit := Digit(rhs, i);
      LagStep(lhs1, lhs2, rhs, i, if borrow == 0 then 0 else 1);
      LimbsAreOk(lhs1);
      LimbsAreOk(lhs2);
      LimbsAreOk(rhs);
      Decided(lhs1, lhs2, rhs, i, rhsBigit + borrow - sum);
      if sum > rhsBigit + borrow { return 1; }
      borrow := rhsBigit + borrow - sum;
      if borrow > 1 { return -1; }
      LagIs(lhs1, lhs2, rhs, i, borrow);
      borrow := borrow * B;
      i := i - 1;
    }
    BottomsOut(lhs1, lhs2, rhs, minExp, if borrow == 0 then 0 else 1);
    r := if borrow != 0 then -1 else 0;
  }

  lemma LagIs(a: Num, b: Num, c: Num, i: nat, lag: nat)
    requires Top(c, i) == Top(a, i) + Top(b, i) + lag
    ensures Lags(a, b, c, i, lag)
  {
  }

  lemma SomeLimbs(a: Num)
    requires a.Ok()
    ensures a.limbs != []
  {
  }

  lemma LimbsAreOk(a: Num)
    requires a.Ok()
    ensures LimbsOk(a.limbs)
  {
  }
}
