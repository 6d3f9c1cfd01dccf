/** The divisor and remainder of QR error correction, section 7.5 of ISO/IEC 18004:2015. */
module ReedSolomon {
  import opened QrField

  /** Coefficients from the highest power down. */
  type Poly = seq<bv8>

  function Scale(p: Poly, f: bv8): (r: Poly)
    ensures |r| == |p|
  {
    seq(|p|, i requires 0 <= i < |p| => Mul(p[i], f))
  }

  function Sum(p: Poly, q: Poly): (r: Poly)
    requires |p| == |q|
    ensures |r| == |p|
  {
    seq(|p|, i requires 0 <= i < |p| => Add(p[i], q[i]))
  }

  function Zeros(n: nat): (r: Poly)
    ensures |r| == n
  {
    seq(n, i => 0)
  }

  /** p + q for a q no longer than p, lowest powers aligned. */
  function SumLow(p: Poly, q: Poly): (r: Poly)
    requires |q| <= |p|
    ensures |r| == |p|
  {
    p[..|p| - |q|] + Sum(p[|p| - |q|..], q)
  }

  /** The product, by the coefficients of p from the top. */
  function Times(p: Poly, g: Poly): (r: Poly)
    requires g != []
    ensures |r| == |p| + |g| - 1
  {
    if p == [] then Zeros(|g| - 1)
    else SumLow(Times(p[..|p| - 1], g) + [0], Scale(g, p[|p| - 1]))
  }

  function Eval(p: Poly, x: bv8): bv8 {
    if p == [] then 0 else Add(Mul(Eval(p[..|p| - 1], x), x), p[|p| - 1])
  }

  // ------------------------------------------------------------------ evaluation is a homomorphism

  lemma {:induction false} EvalSum(p: Poly, q: Poly, x: bv8)
    requires |p| == |q|
    ensures Eval(Sum(p, q), x) == Add(Eval(p, x), Eval(q, x))
  {
    hide Add, Mul;
    if p == [] {
      AddLaws(0, 0, 0);
    } else {
      var a, b := p[..|p| - 1], q[..|q| - 1];
      assert Sum(p, q)[..|p| - 1] == Sum(a, b);
      EvalSum(a, b, x);
      MulAdds(x, Eval(a, x), Eval(b, x));
      AddFour(Mul(Eval(a, x), x), Mul(Eval(b, x), x), p[|p| - 1], q[|q| - 1]);
    }
  }

  lemma {:induction false} EvalScale(p: Poly, f: bv8, x: bv8)
    ensures Eval(Scale(p, f), x) == Mul(Eval(p, x), f)
  {
    hide Add, Mul;
    if p == [] {
      MulZero(f);
    } else {
      var a, c := p[..|p| - 1], p[|p| - 1];
      assert Scale(p, f)[..|p| - 1] == Scale(a, f);
      EvalScale(a, f, x);
      MulSwap(Eval(a, x), f, x);
      MulAdds(f, Mul(Eval(a, x), x), c);
    }
  }

  lemma MulZero(f: bv8)
    ensures Mul(0, f) == 0 && Mul(f, 0) == 0
  {
    hide Mul;
    MulOne(f);
    MulCommutes(f, 0);
  }

  lemma MulSwap(a: bv8, b: bv8, c: bv8)
    ensures Mul(Mul(a, b), c) == Mul(Mul(a, c), b)
  {
    hide Mul;
    MulAssociates(a, b, c);
    MulCommutes(b, c);
    MulAssociates(a, c, b);
  }

  lemma {:induction false} EvalZeros(n: nat, x: bv8)
    ensures Eval(Zeros(n), x) == 0
  {
    hide Add, Mul;
    if n > 0 {
      assert Zeros(n)[..n - 1] == Zeros(n - 1);
      EvalZeros(n - 1, x);
      MulZero(x);
      AddLaws(0, 0, 0);
    }
  }

  /** A longer polynomial and a shorter one padded above: the padding does not count. */
  lemma {:induction false} EvalPadded(n: nat, q: Poly, x: bv8)
    ensures Eval(Zeros(n) + q, x) == Eval(q, x)
  {
    hide Add, Mul;
    if q == [] {
      assert Zeros(n) + q == Zeros(n);
      EvalZeros(n, x);
    } else {
      assert (Zeros(n) + q)[..n + |q| - 1] == Zeros(n) + q[..|q| - 1];
      EvalPadded(n, q[..|q| - 1], x);
    }
  }

  lemma EvalSumLow(p: Poly, q: Poly, x: bv8)
    requires |q| <= |p|
    ensures Eval(SumLow(p, q), x) == Add(Eval(p, x), Eval(q, x))
  {
    hide Add, Mul, Eval;
    var n := |p| - |q|;
    assert SumLow(p, q) == Sum(p, Zeros(n) + q) by {
      forall i | 0 <= i < |p| ensures SumLow(p, q)[i] == Add(p[i], (Zeros(n) + q)[i]) {
        AddLaws(p[i], 0, 0);
      }
    }
    EvalSum(p, Zeros(n) + q, x);
    EvalPadded(n, q, x);
  }

  lemma {:induction false} EvalTimes(p: Poly, g: Poly, x: bv8)
    requires g != []
    ensures Eval(Times(p, g), x) == Mul(Eval(p, x), Eval(g, x))
  {
    hide Add, Mul, SumLow, Scale;
    if p == [] {
      EvalZeros(|g| - 1, x);
      MulZero(Eval(g, x));
    } else {
      var a, c := p[..|p| - 1], p[|p| - 1];
      var t := Times(a, g);
      EvalTimes(a, g, x);
      EvalSumLow(t + [0], Scale(g, c), x);
      EvalScale(g, c, x);
      assert (t + [0])[..|t|] == t;
      AddLaws(Mul(Eval(t, x), x), 0, 0);
      MulSwap(Eval(a, x), Eval(g, x), x);
      MulCommutes(Eval(g, x), c);
      MulAdds(Eval(g, x), Mul(Eval(a, x), x), c);
    }
  }

  // ------------------------------------------------------------------ the generator

  /** 2^i in the field. */
  function Root(i: nat): bv8 { if i == 0 then 1 else Mul(Root(i - 1), 2) }

  /** (x - 2^0)(x - 2^1) ... (x - 2^(n-1)). */
  function Generator(n: nat): (r: Poly)
    ensures |r| == n + 1
  {
    if n == 0 then [1] else Times(Generator(n - 1), [1, Root(n - 1)])
  }

  /** The generator is monic and vanishes at each of its roots. */
  lemma {:induction false} GeneratorRoots(n: nat, i: nat)
    requires i < n
    ensures Eval(Generator(n), Root(i)) == 0
  {
    hide Add, Mul, Root, Times;
    var x, last := Root(i), [1, Root(n - 1)];
    EvalTimes(Generator(n - 1), last, x);
    if i == n - 1 {
      LinearRoot(x);
      MulZero(Eval(Generator(n - 1), x));
    } else {
      GeneratorRoots(n - 1, i);
      MulZero(Eval(last, x));
    }
  }

  lemma LinearRoot(x: bv8)
    ensures Eval([1, x], x) == 0
  {
    hide Add, Mul;
    assert [1, x][..1] == [1] && [1 as bv8][..0] == [];
    MulZero(x);
    AddLaws(0, 1, 0);
    AddLaws(1, 0, 0);
    MulOne(x);
    AddLaws(x, x, x);
    var one: Poly := [1];
    assert Eval(one[..0], x) == 0 && Eval(one, x) == Add(Mul(0, x), 1) == 1;
    assert Eval([1, x], x) == Add(Mul(Eval(one, x), x), x);
  }

  /** Times a linear factor, coefficient by coefficient: what the source's inner loop computes. */
  lemma {:induction false} TimesLinear(p: Poly, r: bv8, k: nat)
    requires k <= |p|
    ensures Times(p, [1, r])[k] == Add(if k < |p| then p[k] else 0, if k > 0 then Mul(p[k - 1], r) else 0)
  {
    hide Add, Mul;
    if p == [] {
      AddLaws(0, 0, 0);
    } else {
      var a, c := p[..|p| - 1], p[|p| - 1];
      var t := Times(a, [1, r]) + [0];
      var s := Scale([1, r], c);
      MulOne(c);
      MulCommutes(r, c);
      assert s[0] == c && s[1] == Mul(c, r);
      var z := SumLow(t, s);
      assert z == Times(p, [1, r]) && z[|p| - 1] == Add(t[|p| - 1], s[0]) && z[|p|] == Add(t[|p|], s[1]);
      if k < |p| {
        TimesLinear(a, r, k);
        assert t[k] == Times(a, [1, r])[k];
      }
      if k < |p| - 1 {
        assert z[k] == t[k] && a[k] == p[k];
        assert k > 0 ==> a[k - 1] == p[k - 1];
      } else if k == |p| {
        assert t[k] == 0;
      } else {
        var b := if k > 0 then Mul(p[k - 1], r) else 0;
        assert k > 0 ==> a[k - 1] == p[k - 1];
        assert t[k] == Add(0, b);
        AddLaws(0, b, c);
        AddLaws(b, c, c);
        AddLaws(b, 0, 0);
        assert z[k] == Add(c, b);
      }
    }
  }

  lemma {:induction false} GeneratorMonic(n: nat)
    ensures Generator(n)[0] == 1
  {
    hide Add, Mul, Root, Times;
    if n > 0 {
      GeneratorMonic(n - 1);
      TimesLinear(Generator(n - 1), Root(n - 1), 0);
      AddLaws(1, 0, 0);
    }
  }

  /** reedSolomonComputeDivisor: the generator without its leading 1, built in place; an error for a degree out of range. */
  method ComputeDivisor(degree: int) returns (result: array?<bv8>)
    ensures result == null <==> degree < 1 || degree > 255
    ensures result != null ==> fresh(result) && [1] + result[..] == Generator(degree)
  {
    hide Mul, Add, Generator, Root, Times;
    if degree < 1 || degree > 255 { return null; }
    result := new bv8[degree](_ => 0);
    result[result.Length - 1] := 1;
    var root: bv8 := 1;
    var i := 0;
    Starts();
    assert [0 as bv8] + result[..] == Zeros(degree) + Generator(0);
    while i < degree
      invariant 0 <= i <= degree && result.Length == degree && root == Root(i)
      invariant [if i == degree then 1 else 0] + result[..] == Zeros(degree - i) + Generator(i)
    {
      ghost var was := result[..];
      ghost var g := Generator(i);
      Unpad(was, g, degree - i);
      var j := 0;
      while j < result.Length
        invariant 0 <= j <= result.Length
        invariant forall k | j <= k < degree :: result[k] == was[k]
        invariant forall k | 0 <= k < j :: result[k] == Add(Mul(was[k], root), if k + 1 < degree then was[k + 1] else 0)
      {
        var product := Multiply(result[j], root);
        result[j] := product;
        if j + 1 < result.Length { result[j] := Add(result[j], result[j + 1]); } else { AddLaws(result[j], 0, 0); }
        j := j + 1;
      }
      NextGenerator(was, result[..], degree, i);
      root := Multiply(root, 2);
      RootNext(i);
      i := i + 1;
    }
    assert Zeros(0) + Generator(degree) == Generator(degree);
  }

  lemma Unpad(was: Poly, g: Poly, n: nat)
    requires n > 0 && [0] + was == Zeros(n) + g
    ensures was == Zeros(n - 1) + g
  {
    assert ([0 as bv8] + was)[1..] == was;
    assert (Zeros(n) + g)[1..] == Zeros(n - 1) + g;
  }

  lemma Starts()
    ensures Generator(0) == [1] && Root(0) == 1
  {
  }

  lemma RootNext(i: nat)
    ensures Root(i + 1) == Mul(Root(i), 2)
  {
  }

  lemma NextCoefficient(was: Poly, degree: nat, i: nat, k: nat)
    requires i < degree == |was| && was == Zeros(degree - i - 1) + Generator(i) && k < degree
    ensures Add(Mul(was[k], Root(i)), if k + 1 < degree then was[k + 1] else 0) ==
      (Zeros(degree - i - 1) + Generator(i + 1))[k + 1]
  {
    hide Mul, Add, Root, Times;
    var g, r, n := Generator(i), Root(i), degree - i - 1;
    var next := Generator(i + 1);
    assert next == Times(g, [1, r]);
    var up := if k + 1 < degree then was[k + 1] else 0;
    MulZero(r);
    AddLaws(0, up, 0);
    AddLaws(up, 0, 0);
    if k + 1 < n {
      assert was[k] == 0 && up == 0;
    } else {
      TimesLinear(g, r, k + 1 - n);
      assert (Zeros(n) + next)[k + 1] == next[k + 1 - n];
      if k >= n {
        assert was[k] == g[k - n];
        assert up == if k + 1 - n < |g| then g[k + 1 - n] else 0;
        AddLaws(Mul(was[k], r), up, 0);
      } else {
        assert was[k] == 0 && up == g[0];
      }
    }
  }

  lemma NextGenerator(was: Poly, now: Poly, degree: nat, i: nat)
    requires i < degree == |was| == |now| && was == Zeros(degree - i - 1) + Generator(i)
    requires forall k | 0 <= k < degree :: now[k] == Add(Mul(was[k], Root(i)), if k + 1 < degree then was[k + 1] else 0)
    ensures [if i + 1 == degree then 1 else 0] + now == Zeros(degree - i - 1) + Generator(i + 1)
  {
    hide Mul, Add, Root, Generator;
    var n := degree - i - 1;
    var next := Zeros(n) + Generator(i + 1);
    GeneratorMonic(i + 1);
    forall k | 0 <= k < degree ensures now[k] == next[k + 1] { NextCoefficient(was, degree, i, k); }
    var all := [if i + 1 == degree then 1 else 0] + now;
    assert |all| == |next|;
    forall k | 0 <= k < |all| ensures all[k] == next[k] {
      if k > 0 { assert all[k] == now[k - 1]; }
    }
  }

  // ------------------------------------------------------------------ the remainder

  /** One data byte of the division: the quotient's next coefficient, and the remainder after it. */
  function Reduce(rem: Poly, b: bv8, divisor: Poly): Poly
    requires |rem| == |divisor| > 0
  {
    var factor := Add(b, rem[0]);
    Sum(rem[1..] + [0], Scale(divisor, factor))
  }

  function Remainder(data: Poly, divisor: Poly): (r: Poly)
    requires |divisor| > 0
    ensures |r| == |divisor|
  {
    if data == [] then Zeros(|divisor|) else Reduce(Remainder(data[..|data| - 1], divisor), data[|data| - 1], divisor)
  }

  function Quotient(data: Poly, divisor: Poly): (r: Poly)
    requires |divisor| > 0
    ensures |r| == |data|
  {
    if data == [] then []
    else
      var init := data[..|data| - 1];
      Quotient(init, divisor) + [Add(data[|data| - 1], Remainder(init, divisor)[0])]
  }

  /** reedSolomonComputeRemainder. */
  method ComputeRemainder(data: Poly, divisor: Poly) returns (result: Poly)
    requires |divisor| > 0
    ensures result == Remainder(data, divisor)
  {
    hide Mul, Add;
    result := Zeros(|divisor|);
    var n := 0;
    while n < |data|
      invariant n <= |data| && result == Remainder(data[..n], divisor)
    {
      var factor := Add(data[n], result[0]);
      ghost var was := result;
      result := result[1..];
      result := result + [0];
      ghost var shifted := result;
      var i := 0;
      while i < |result|
        invariant i <= |result| == |divisor|
        invariant forall k | i <= k < |result| :: result[k] == shifted[k]
        invariant forall k | 0 <= k < i :: result[k] == Add(shifted[k], Mul(divisor[k], factor))
      {
        var product := Multiply(divisor[i], factor);
        result := result[i := Add(result[i], product)];
        i := i + 1;
      }
      assert result == Reduce(was, data[n], divisor);
      assert data[..n + 1][..n] == data[..n];
      n := n + 1;
    }
    assert data[..n] == data;
  }

  /** Taking factor times the divisor from the top leaves the byte itself and the reduced rest. */
  lemma ReduceStep(init: Poly, rem: Poly, b: bv8, divisor: Poly)
    requires |rem| == |divisor| > 0
    ensures SumLow(init + rem + [0], Scale([1] + divisor, Add(b, rem[0]))) == init + [b] + Reduce(rem, b, divisor)
  {
    hide Mul, Add;
    var f, n := Add(b, rem[0]), |init|;
    var s := Scale([1] + divisor, f);
    var t := init + rem + [0];
    assert t[..n] == init && t[n..] == rem + [0];
    MulOne(f);
    AddLaws(rem[0], b, rem[0]);
    AddLaws(b, rem[0], rem[0]);
    AddLaws(b, 0, 0);
    assert Sum(rem + [0], s) == [b] + Reduce(rem, b, divisor) by {
      var low := Scale(divisor, f);
      assert forall k | 0 < k < |s| :: s[k] == low[k - 1] && (rem + [0])[k] == (rem[1..] + [0])[k - 1];
    }
  }

  lemma TimesSnoc(q: Poly, f: bv8, g: Poly)
    requires g != []
    ensures Times(q + [f], g) == SumLow(Times(q, g) + [0], Scale(g, f))
  {
    hide Scale, SumLow;
    assert (q + [f])[..|q|] == q;
  }

  lemma RemainderSnoc(init: Poly, b: bv8, divisor: Poly)
    requires |divisor| > 0
    ensures Remainder(init + [b], divisor) == Reduce(Remainder(init, divisor), b, divisor)
    ensures Quotient(init + [b], divisor) == Quotient(init, divisor) + [Add(b, Remainder(init, divisor)[0])]
  {
    hide Reduce, Add;
    assert (init + [b])[..|init|] == init;
  }

  /** Data followed by its remainder is a multiple of the monic divisor. */
  lemma {:induction false} RemainderDivides(data: Poly, divisor: Poly)
    requires |divisor| > 0
    ensures Times(Quotient(data, divisor), [1] + divisor) == data + Remainder(data, divisor)
  {
    hide Mul, Add, Scale, SumLow, Reduce;
    if data == [] {
      assert data + Zeros(|divisor|) == Zeros(|divisor|);
    } else {
      hide Times, Remainder, Quotient;
      var init, b := data[..|data| - 1], data[|data| - 1];
      var rem := Remainder(init, divisor);
      assert data == init + [b];
      RemainderDivides(init, divisor);
      RemainderSnoc(init, b, divisor);
      TimesSnoc(Quotient(init, divisor), Add(b, rem[0]), [1] + divisor);
      ReduceStep(init, rem, b, divisor);
    }
  }

  /** Codewords with their error correction vanish at every root of the generator. */
  lemma CodewordRoots(data: Poly, divisor: Poly, degree: nat, i: nat)
    requires i < degree && [1] + divisor == Generator(degree)
    ensures Eval(data + Remainder(data, divisor), Root(i)) == 0
  {
    hide Mul, Add, Times, Eval, Root;
    assert |divisor| == degree;
    RemainderDivides(data, divisor);
    EvalTimes(Quotient(data, divisor), [1] + divisor, Root(i));
    GeneratorRoots(degree, i);
    MulZero(Eval(Quotient(data, divisor), Root(i)));
  }
}
