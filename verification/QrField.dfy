/** Arithmetic in GF(2^8) modulo 0x11D, as reedSolomonMultiply computes it. */
module QrField {

  /** Addition, and subtraction: exclusive or. */
  function Add(a: bv8, b: bv8): bv8 { a ^ b }

  /** Times the generator 2, reduced. */
  function Double(z: bv8): bv8 { (z << 1) ^ ((z >> 7) * 0x1D) }

  predicate Bit(y: bv8, i: nat)
    requires i < 8
  {
    if i == 0 then y & 0x01 != 0 else if i == 1 then y & 0x02 != 0 else if i == 2 then y & 0x04 != 0
    else if i == 3 then y & 0x08 != 0 else if i == 4 then y & 0x10 != 0 else if i == 5 then y & 0x20 != 0
    else if i == 6 then y & 0x40 != 0 else y & 0x80 != 0
  }

  /** One turn of the peasant loop. */
  function Turn(z: bv8, x: bv8, b: bool): bv8 { if b then Add(Double(z), x) else Double(z) }

  /** The loop down to bit i of y. */
  function Horner(x: bv8, y: bv8, i: nat): bv8
    requires i <= 8
    decreases 8 - i
  {
    if i == 8 then 0 else Turn(Horner(x, y, i + 1), x, Bit(y, i))
  }

  function Mul(x: bv8, y: bv8): bv8 { Horner(x, y, 0) }

  lemma BitIs(y: bv8, i: nat)
    requires i < 8
    ensures (y >> i) & 1 == if Bit(y, i) then 1 else 0
  {
    if i == 0 {} else if i == 1 {} else if i == 2 {} else if i == 3 {} else if i == 4 {} else if i == 5 {} else if i == 6 {} else {}
  }

  /** The wider word of the source, one turn on: the ninth bit is gone again. */
  lemma Shifted(z: bv8, w: bv16)
    requires w == (z as bv16 << 1) ^ ((z as bv16 >> 7) * 0x11D)
    ensures w == Double(z) as bv16
  {
  }

  lemma Summed(d: bv8, x: bv8, w: bv16)
    requires w == d as bv16 ^ x as bv16
    ensures w == Add(d, x) as bv16
  {
  }

  lemma Times(b: bv16, x: bv16)
    ensures b == 0 ==> b * x == 0
    ensures b == 1 ==> b * x == x
    ensures x ^ 0 == x
  {
  }

  /** The loop body of the source, in a wider word. */
  function WideTurn(z: bv16, x: bv8, b: bv8): bv16 {
    var w := (z << 1) ^ ((z >> 7) * 0x11D);
    w ^ ((b & 1) as bv16 * x as bv16)
  }

  lemma WideIsTurn(z: bv8, x: bv8, y: bv8, i: nat)
    requires i < 8
    ensures WideTurn(z as bv16, x, y >> i) == Turn(z, x, Bit(y, i)) as bv16
  {
    hide Double, Add, Bit;
    var w := (z as bv16 << 1) ^ ((z as bv16 >> 7) * 0x11D);
    Shifted(z, w);
    BitIs(y, i);
    Times(((y >> i) & 1) as bv16, x as bv16);
    Times(0, w);
    Summed(Double(z), x, w ^ x as bv16);
  }

  method Multiply(x: bv8, y: bv8) returns (r: bv8)
    ensures r == Mul(x, y)
  {
    hide Turn, WideTurn, Bit, Horner;
    var z: bv16 := 0;
    var i: int := 7;
    HornerStep(x, y, 8);
    while i >= 0
      invariant -1 <= i <= 7 && z == Horner(x, y, i + 1) as bv16
    {
      WideIsTurn(Horner(x, y, i + 1), x, y, i);
      HornerStep(x, y, i);
      z := WideTurn(z, x, y >> i);
      i := i - 1;
    }
    r := z as bv8;
  }

  // ------------------------------------------------------------------ the field laws

  lemma AddLaws(a: bv8, b: bv8, c: bv8)
    ensures Add(Add(a, b), c) == Add(a, Add(b, c)) && Add(a, b) == Add(b, a)
    ensures Add(a, 0) == a && Add(a, a) == 0
  {
  }

  lemma AddFour(a: bv8, b: bv8, c: bv8, d: bv8)
    ensures Add(Add(a, b), Add(c, d)) == Add(Add(a, c), Add(b, d))
  {
    hide Add;
    AddLaws(a, b, Add(c, d));
    AddLaws(b, c, d);
    AddLaws(c, b, d);
    AddLaws(a, c, Add(b, d));
  }

  lemma BitAdds(a: bv8, b: bv8, i: nat)
    requires i < 8
    ensures Bit(Add(a, b), i) == (Bit(a, i) != Bit(b, i))
  {
    if i == 0 {} else if i == 1 {} else if i == 2 {} else if i == 3 {} else if i == 4 {} else if i == 5 {} else if i == 6 {} else {}
  }

  lemma DoubleAdds(a: bv8, b: bv8)
    ensures Double(Add(a, b)) == Add(Double(a), Double(b))
  {
  }

  lemma TurnAdds(z: bv8, w: bv8, x: bv8, a: bool, b: bool)
    ensures Turn(Add(z, w), x, a != b) == Add(Turn(z, x, a), Turn(w, x, b))
  {
    hide Double, Add;
    DoubleAdds(z, w);
    var p, q := Double(z), Double(w);
    AddLaws(p, q, x);
    AddLaws(p, x, q);
    AddLaws(q, x, p);
    AddFour(p, x, q, x);
    AddLaws(Add(p, q), x, x);
    AddLaws(x, x, x);
    AddLaws(x, q, p);
  }

  lemma TurnAddsLeft(z: bv8, w: bv8, x: bv8, y: bv8, b: bool)
    ensures Turn(Add(z, w), Add(x, y), b) == Add(Turn(z, x, b), Turn(w, y, b))
  {
    hide Double, Add;
    DoubleAdds(z, w);
    AddFour(Double(z), Double(w), x, y);
  }

  lemma TurnDoubles(z: bv8, x: bv8, b: bool)
    ensures Turn(Double(z), Double(x), b) == Double(Turn(z, x, b))
  {
    hide Double, Add;
    DoubleAdds(Double(z), x);
  }

  lemma HornerStep(x: bv8, y: bv8, i: nat)
    requires i <= 8
    ensures i == 8 ==> Horner(x, y, i) == 0
    ensures i < 8 ==> Horner(x, y, i) == Turn(Horner(x, y, i + 1), x, Bit(y, i))
  {
    hide Turn, Bit;
  }

  lemma {:induction false} HornerAdds(x: bv8, a: bv8, b: bv8, i: nat)
    requires i <= 8
    ensures Horner(x, Add(a, b), i) == Add(Horner(x, a, i), Horner(x, b, i))
    decreases 8 - i
  {
    hide Turn, Bit, Horner, Add;
    HornerStep(x, a, i);
    HornerStep(x, b, i);
    HornerStep(x, Add(a, b), i);
    if i < 8 {
      HornerAdds(x, a, b, i + 1);
      BitAdds(a, b, i);
      TurnAdds(Horner(x, a, i + 1), Horner(x, b, i + 1), x, Bit(a, i), Bit(b, i));
    } else {
      AddLaws(0, 0, 0);
    }
  }

  lemma {:induction false} HornerAddsLeft(x: bv8, y: bv8, a: bv8, i: nat)
    requires i <= 8
    ensures Horner(Add(x, y), a, i) == Add(Horner(x, a, i), Horner(y, a, i))
    decreases 8 - i
  {
    hide Turn, Bit, Horner, Add;
    HornerStep(x, a, i);
    HornerStep(y, a, i);
    HornerStep(Add(x, y), a, i);
    if i < 8 {
      HornerAddsLeft(x, y, a, i + 1);
      TurnAddsLeft(Horner(x, a, i + 1), Horner(y, a, i + 1), x, y, Bit(a, i));
    } else {
      AddLaws(0, 0, 0);
    }
  }

  lemma DoubleZero()
    ensures Double(0) == 0
  {
  }

  lemma {:induction false} HornerDoubles(x: bv8, a: bv8, i: nat)
    requires i <= 8
    ensures Horner(Double(x), a, i) == Double(Horner(x, a, i))
    decreases 8 - i
  {
    hide Turn, Bit, Horner, Double;
    HornerStep(x, a, i);
    HornerStep(Double(x), a, i);
    DoubleZero();
    if i < 8 {
      HornerDoubles(x, a, i + 1);
      TurnDoubles(Horner(x, a, i + 1), x, Bit(a, i));
    }
  }

  /** Multiplication distributes over addition. */
  lemma MulAdds(x: bv8, a: bv8, b: bv8)
    ensures Mul(x, Add(a, b)) == Add(Mul(x, a), Mul(x, b))
    ensures Mul(Add(a, b), x) == Add(Mul(a, x), Mul(b, x))
  {
    hide Horner, Add;
    HornerAdds(x, a, b, 0);
    HornerAddsLeft(a, b, x, 0);
  }

  lemma MulOne(y: bv8)
    ensures Mul(1, y) == y && Mul(0, y) == 0
  {
    hide Turn, Bit, Horner, Add;
    OneBits(y);
    HornerStep(1, y, 0); HornerStep(1, y, 1); HornerStep(1, y, 2); HornerStep(1, y, 3); HornerStep(1, y, 4);
    HornerStep(1, y, 5); HornerStep(1, y, 6); HornerStep(1, y, 7); HornerStep(1, y, 8);
    ZeroTimes(y, 0);
  }

  lemma OneBits(y: bv8)
    ensures Turn(Turn(Turn(Turn(Turn(Turn(Turn(Turn(0, 1, Bit(y, 7)), 1, Bit(y, 6)), 1, Bit(y, 5)), 1, Bit(y, 4)), 1, Bit(y, 3)),
                           1, Bit(y, 2)), 1, Bit(y, 1)), 1, Bit(y, 0)) == y
  {
  }

  lemma {:induction false} ZeroTimes(y: bv8, i: nat)
    requires i <= 8
    ensures Horner(0, y, i) == 0
    decreases 8 - i
  {
    hide Bit, Horner, Add, Double;
    HornerStep(0, y, i);
    DoubleZero();
    AddLaws(0, 0, 0);
    if i < 8 { ZeroTimes(y, i + 1); }
  }

  /** Reading y's bits as a polynomial in 2, times x: the loop multiplies from either side. */
  lemma {:induction false} HornerSwaps(x: bv8, y: bv8, i: nat)
    requires i <= 8
    ensures Mul(Horner(1, y, i), x) == Horner(x, y, i)
    decreases 8 - i
  {
    hide Bit, Horner, Double, Mul, Add;
    HornerStep(1, y, i);
    HornerStep(x, y, i);
    MulOne(x);
    if i < 8 {
      var h := Horner(1, y, i + 1);
      HornerSwaps(x, y, i + 1);
      DoubleMul(h, x);
      MulAdds(x, Double(h), 1);
    }
  }

  lemma DoubleMul(h: bv8, x: bv8)
    ensures Mul(Double(h), x) == Double(Mul(h, x))
  {
    hide Horner, Double;
    HornerDoubles(h, x, 0);
  }

  lemma MulCommutes(x: bv8, y: bv8)
    ensures Mul(x, y) == Mul(y, x)
  {
    hide Horner;
    HornerSwaps(x, y, 0);
    MulOne(y);
  }

  lemma MulDouble(x: bv8, w: bv8)
    ensures Mul(x, Double(w)) == Double(Mul(x, w))
  {
    hide Mul, Double;
    MulCommutes(x, Double(w));
    DoubleMul(w, x);
    MulCommutes(w, x);
  }

  lemma {:induction false} HornerNests(x: bv8, y: bv8, z: bv8, i: nat)
    requires i <= 8
    ensures Horner(Mul(x, y), z, i) == Mul(x, Horner(y, z, i))
    decreases 8 - i
  {
    hide Bit, Horner, Double, Mul, Add;
    HornerStep(Mul(x, y), z, i);
    HornerStep(y, z, i);
    if i < 8 {
      var h := Horner(y, z, i + 1);
      HornerNests(x, y, z, i + 1);
      MulDouble(x, h);
      MulAdds(x, Double(h), y);
    } else {
      MulCommutes(x, 0);
      MulOne(x);
    }
  }

  lemma MulAssociates(x: bv8, y: bv8, z: bv8)
    ensures Mul(Mul(x, y), z) == Mul(x, Mul(y, z))
  {
    hide Horner;
    HornerNests(x, y, z, 0);
  }
}
