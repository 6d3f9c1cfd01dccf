/** Values of limb sequences, least significant first, and the arithmetic the bigint loops rest on. */
module BigLimbs {

  const B := 0x1_0000_0000

  type Limbs = seq<nat>

  predicate LimbsOk(l: Limbs) { forall i | 0 <= i < |l| :: l[i] < B }

  function Power(b: nat, k: nat): (r: nat)
    ensures b > 0 ==> r > 0
  {
    if k == 0 then 1 else b * Power(b, k - 1)
  }

  function P(k: nat): nat { Power(B, k) }

  function Val(l: Limbs): nat { if l == [] then 0 else Val(l[..|l| - 1]) + l[|l| - 1] * P(|l| - 1) }

  // ------------------------------------------------------------------ products, one fact at a time

  lemma MulAdd(a: int, b: int, c: int)
    ensures (a + b) * c == a * c + b * c && c * (a + b) == c * a + c * b && a * b == b * a
  {
  }

  lemma MulAssoc(a: int, b: int, c: int)
    ensures (a * b) * c == a * (b * c) == b * (a * c)
  {
  }

  lemma MulMono(a: nat, b: nat, c: nat)
    requires a <= b
    ensures a * c <= b * c
  {
    MulAdd(a, b - a, c);
  }

  lemma MulStrict(a: nat, b: nat, c: nat)
    requires a < b && 0 < c
    ensures a * c < b * c && a * c + c <= b * c
  {
    MulAdd(a, 1, c);
    MulMono(a + 1, b, c);
  }

  lemma DivMod(v: nat, p: nat)
    requires p > 0
    ensures v == (v / p) * p + v % p && v % p < p
  {
  }

  lemma DivUnique(v: nat, p: nat, q: nat, r: nat)
    requires v == q * p + r && r < p
    ensures v / p == q && v % p == r
  {
    DivMod(v, p);
    var d := v / p;
    if d < q { MulStrict(d, q, p); }
    if q < d { MulStrict(q, d, p); }
  }

  lemma {:induction false} PowerPositive(b: nat, k: nat)
    requires b > 0
    ensures Power(b, k) > 0
  {
    if k > 0 {
      PowerPositive(b, k - 1);
      MulStrict(0, Power(b, k - 1), b);
    }
  }

  lemma {:induction false} PowerAdds(b: nat, i: nat, j: nat)
    ensures Power(b, i + j) == Power(b, i) * Power(b, j)
  {
    if i > 0 {
      PowerAdds(b, i - 1, j);
      MulAssoc(b, Power(b, i - 1), Power(b, j));
    }
  }

  lemma {:induction false} PowerProduct(a: nat, b: nat, k: nat)
    ensures Power(a * b, k) == Power(a, k) * Power(b, k)
  {
    if k > 0 {
      PowerProduct(a, b, k - 1);
      var (x, y) := (Power(a, k - 1), Power(b, k - 1));
      MulAssoc(a, b, x * y);
      MulAssoc(b, x, y);
      MulAssoc(a, x, b * y);
    }
  }

  /** The next limb of a prefix. */
  lemma ValSnoc(l: Limbs, x: nat)
    ensures Val(l + [x]) == Val(l) + x * P(|l|)
  {
    assert (l + [x])[..|l|] == l;
  }

  lemma ValStep(l: Limbs, i: nat)
    requires i < |l|
    ensures Val(l[..i + 1]) == Val(l[..i]) + l[i] * P(i)
  {
    assert l[..i + 1] == l[..i] + [l[i]];
    ValSnoc(l[..i], l[i]);
  }

  lemma PStep(k: nat)
    ensures P(k + 1) == B * P(k) && P(k) > 0
  {
    PowerPositive(B, k);
  }

  lemma {:induction false} ValBound(l: Limbs)
    requires LimbsOk(l)
    ensures Val(l) < P(|l|)
  {
    if l != [] {
      var n := |l| - 1;
      ValBound(l[..n]);
      PStep(n);
      MulMono(l[n], B - 1, P(n));
      MulAdd(B - 1, 1, P(n));
    }
  }

  /** A top limb that is not zero. */
  predicate Normal(l: Limbs) { LimbsOk(l) && l != [] && l[|l| - 1] != 0 }

  lemma NormalBound(l: Limbs)
    requires Normal(l)
    ensures P(|l| - 1) <= Val(l) < P(|l|)
  {
    ValBound(l);
    MulMono(1, l[|l| - 1], P(|l| - 1));
  }

  /** Carrying: a digit and a carry stand for what was accumulated. */
  lemma Carry(done: nat, sum: nat, i: nat)
    ensures sum % B + sum / B * B == sum
    ensures done + (sum % B) * P(i) + (sum / B) * P(i + 1) == done + sum * P(i)
  {
    DivMod(sum, B);
    PStep(i);
    MulAssoc(sum / B, B, P(i));
    MulAdd(sum % B, sum / B * B, P(i));
  }

  lemma {:induction false} ValZeros(l: Limbs, n: nat)
    ensures Val(l + seq(n, i => 0)) == Val(l)
  {
    var z := seq(n, i => 0);
    if n == 0 {
      assert l + z == l;
    } else {
      var y := seq(n - 1, i => 0);
      assert l + z == (l + y) + [0];
      ValSnoc(l + y, 0);
      ValZeros(l, n - 1);
    }
  }

  lemma {:induction false} ValShifted(l: Limbs, n: nat)
    ensures Val(seq(n, i => 0) + l) == Val(l) * P(n)
  {
    var z := seq(n, i => 0);
    if l == [] {
      assert z + l == [] + z;
      ValZeros([], n);
    } else {
      var init, x := l[..|l| - 1], l[|l| - 1];
      assert z + l == (z + init) + [x];
      ValSnoc(z + init, x);
      ValShifted(init, n);
      PowerAdds(B, n, |init|);
      MulAssoc(x, P(|init|), P(n));
      MulAdd(P(n), P(|init|), 0);
      MulAdd(Val(init), x * P(|init|), P(n));
    }
  }

  // ------------------------------------------------------------------ convolution

  /** The first m terms l[i] * l[k - i] of column k of the square. */
  function Column(l: Limbs, k: nat, m: nat): nat
    requires m <= |l|
  {
    if m == 0 then 0
    else Column(l, k, m - 1) + (if 0 <= k - (m - 1) < |l| then l[m - 1] * l[k - (m - 1)] else 0)
  }

  /** The columns before n, weighed. */
  function Columns(l: Limbs, n: nat, m: nat): nat
    requires m <= |l|
  {
    if n == 0 then 0 else Columns(l, n - 1, m) + Column(l, n - 1, m) * P(n - 1)
  }

  lemma NoLimb()
    ensures Val([]) == 0
  {
  }

  /** One limb more in row m. */
  lemma TermAdds(l: Limbs, k: nat, m: nat)
    requires m < |l| && k < |l|
    ensures l[m] * Val(l[..k + 1]) * P(m) == l[m] * Val(l[..k]) * P(m) + l[m] * l[k] * P(k + m)
  {
    ValStep(l, k);
    PowerAdds(B, k, m);
    assert P(k) * P(m) == P(k + m);
    hide Val, P;
    var (x, v, y, a, b) := (l[m], Val(l[..k]), l[k], P(k), P(m));
    MulAdd(v, y * a, x);
    MulAdd(x * v, x * (y * a), b);
    MulAssoc(x, y, a);
    MulAssoc(x * y, a, b);
  }

  /** What row m adds to the columns before n. */
  lemma {:induction false} RowAdds(l: Limbs, n: nat, m: nat)
    requires m < |l|
    ensures var k := if n <= m then 0 else if n - m < |l| then n - m else |l|;
      Columns(l, n, m + 1) == Columns(l, n, m) + l[m] * Val(l[..k]) * P(m)
  {
    hide Val, P;
    if n == 0 {
      assert l[..0] == [];
      NoLimb();
    } else {
      RowAdds(l, n - 1, m);
      var k := n - 1 - m;
      if 0 <= k < |l| {
        TermAdds(l, k, m);
        MulAdd(Column(l, n - 1, m), l[m] * l[k], P(n - 1));
      } else {
        assert Column(l, n - 1, m + 1) == Column(l, n - 1, m);
        if k >= |l| { assert l[..|l|] == l; }
        if k < 0 {
          assert l[..0] == [];
          NoLimb();
        }
      }
    }
  }

  /** All rows: the columns of the square weigh the square of the value. */
  lemma {:induction false} ColumnsAre(l: Limbs, m: nat)
    requires m <= |l|
    ensures Columns(l, 2 * |l|, m) == Val(l[..m]) * Val(l)
  {
    if m == 0 {
      NoColumns(l, 2 * |l|);
    } else {
      ColumnsAre(l, m - 1);
      RowAdds(l, 2 * |l|, m - 1);
      assert l[..|l|] == l;
      ValStep(l, m - 1);
      MulAdd(Val(l[..m - 1]), l[m - 1] * P(m - 1), Val(l));
      MulAssoc(l[m - 1], Val(l), P(m - 1));
      MulAssoc(l[m - 1], P(m - 1), Val(l));
      MulAdd(Val(l), P(m - 1), 0);
    }
  }

  lemma {:induction false} NoColumns(l: Limbs, n: nat)
    ensures Columns(l, n, 0) == 0
  {
    if n > 0 { NoColumns(l, n - 1); }
  }

  /** Later terms of a column that fall off the number are nothing. */
  lemma {:induction false} ColumnEnds(l: Limbs, k: nat, m: nat, n: nat)
    requires m <= n <= |l| && k < m
    ensures Column(l, k, n) == Column(l, k, m)
    decreases n - m
  {
    if m < n {
      ColumnEnds(l, k, m, n - 1);
      assert k - (n - 1) < 0;
    }
  }

  /** Earlier ones too. */
  lemma {:induction false} ColumnStarts(l: Limbs, k: nat, m: nat)
    requires m <= |l| && (m == 0 || k - (m - 1) >= |l|)
    ensures Column(l, k, m) == 0
  {
    if m > 0 { ColumnStarts(l, k, m - 1); }
  }

  /** No column overflows the 128-bit accumulator. */
  lemma {:induction false} ColumnBound(l: Limbs, k: nat, m: nat)
    requires LimbsOk(l) && m <= |l|
    ensures Column(l, k, m) <= m * ((B - 1) * (B - 1))
  {
    if m > 0 {
      ColumnBound(l, k, m - 1);
      MulAdd(m - 1, 1, (B - 1) * (B - 1));
      if 0 <= k - (m - 1) < |l| { ProductBound(l[m - 1], l[k - (m - 1)]); }
    }
  }

  lemma ProductBound(x: nat, y: nat)
    requires x < B && y < B
    ensures x * y <= (B - 1) * (B - 1)
  {
    MulMono(x, B - 1, y);
    MulMono(y, B - 1, B - 1);
  }

  /** A snapshot: limbs, least significant first, and the exponent. */
  datatype Num = Num(limbs: Limbs, exp: nat) {
    function Value(): nat { Val(limbs) * P(exp) }

    /** num_bigits. */
    function Size(): nat { |limbs| + exp }

    /** A top limb that is not zero. */
    predicate Ok() { Normal(limbs) }
  }
}
