/** YS_Md5: messages hashed piece by piece, whatever the compression function. */
module Md5 {
  import opened Octets
  import opened BlockHash

  /** The bit counter in two 32-bit halves, moved on by len octets. */
  function Counted(nl: nat, nh: nat, len: nat): (r: (nat, nat))
    requires nl < Two32 && nh < Two32 && len < Two32
    ensures r.0 < Two32 && r.1 < Two32
  {
    var l := (nl + len * 8 % Two32) % Two32;
    var carried := if l < nl then (nh + 1) % Two32 else nh;
    (l, (carried + len / 0x2000_0000) % Two32)
  }

  /** The two halves hold the bits in n octets, mod 2^64. */
  predicate CountIs(nl: nat, nh: nat, n: nat) { nl < Two32 && nh < Two32 && nl + Two32 * nh == 8 * n % Two64 }

  lemma NothingCounted()
    ensures CountIs(0, 0, 0) && Held(0) == 0
  {
  }

  lemma CarryOut(nl: nat, a: nat)
    requires nl < Two32 && a < Two32
    ensures var l := (nl + a) % Two32; nl + a == l + if l < nl then Two32 else 0
  {
  }

  lemma EightTimes(len: nat)
    requires len < Two32
    ensures len * 8 == len * 8 % Two32 + Two32 * (len / 0x2000_0000)
  {
  }

  /** The carry between the halves loses nothing: together they count bits mod 2^64. */
  lemma CountedIsSum(nl: nat, nh: nat, len: nat, n: nat)
    requires CountIs(nl, nh, n) && len < Two32
    ensures var r := Counted(nl, nh, len); CountIs(r.0, r.1, n + len)
  {
    EightTimes(len);
    CarryOut(nl, len * 8 % Two32);
    var r := Counted(nl, nh, len);
    var c := if r.0 < nl then 1 else 0;
    var q := len / 0x2000_0000;
    var up := nh + c + q;
    assert r.1 == up % Two32;
    assert nl + Two32 * nh + 8 * len == r.0 + Two32 * up;
    UpperWraps(r.0, up);
    SumWraps(8 * n, 8 * len);
  }

  lemma UpperWraps(lo: nat, up: nat)
    requires lo < Two32
    ensures (lo + Two32 * up) % Two64 == lo + Two32 * (up % Two32)
  {
  }

  lemma SumWraps(a: nat, b: nat)
    ensures (a % Two64 + b) % Two64 == (a + b) % Two64
  {
  }

  lemma LengthIs(nl: nat, nh: nat, n: nat)
    requires CountIs(nl, nh, n)
    ensures Length(true, 8 * n) == Stored(true, nl) + Stored(true, nh)
  {
    hide Stored;
    Halves(8 * n);
  }

  class Context<H> {
    const compress: (H, Octets) -> H
    const iv: H
    var h: H
    const data: array<Octet>
    var nl: nat
    var nh: nat
    var num: nat

    /** Everything fed so far. */
    ghost var message: Octets

    ghost predicate Valid()
      reads this, data
    {
      && data.Length == 64
      && num == Held(|message|)
      && data[..num] == message[|message| - num..]
      && h == Folded(compress, iv, message[..|message| - num])
      && CountIs(nl, nh, |message|)
    }

    constructor (compress: (H, Octets) -> H, iv: H)
      ensures Valid() && fresh(data) && message == []
      ensures this.compress == compress && this.iv == iv
    {
      hide CountIs, Held;
      NothingCounted();
      this.compress := compress;
      this.iv := iv;
      h := iv;
      data := new Octet[64](_ => 0);
      nl, nh, num := 0, 0, 0;
      message := [];
    }

    method Compress(x: Octets, blocks: nat)
      requires 64 * blocks <= |x|
      modifies this`h
      ensures h == Folded(compress, old(h), x[..64 * blocks])
    {
      var p, left := 0, blocks;
      while left > 0
        invariant p + 64 * left == 64 * blocks && p % 64 == 0
        invariant h == Folded(compress, old(h), x[..p])
      {
        FoldedSnoc(compress, old(h), x[..p], x[p..p + 64]);
        assert x[..p + 64] == x[..p] + x[p..p + 64];
        h := compress(h, x[p..p + 64]);
        p := p + 64;
        left := left - 1;
      }
    }

    /** More octets, of any number: they are counted, complete the block held back, go in by whole blocks, and the rest
        is held back. */
    method Update(input: Octets)
      requires Valid() && |input| < Two32
      modifies this, data
      ensures Valid() && message == old(message) + input
    {
      assert nl < Two32 && nh < Two32;
      hide Folded, Counted, CountIs, Zeros, Held, Aligned, At;
      if |input| == 0 {
        assert message + input == message;
        return;
      }
      CountedIsSum(nl, nh, |input|, |message|);
      var counted := Counted(nl, nh, |input|);
      nl, nh := counted.0, counted.1;
      var n := num;
      ghost var p, all := |message| - n, data[..n] + input;
      AtHeld(message, input, p);
      message := message + input;
      var rest := input;
      if n != 0 {
        if |rest| >= 64 || |rest| + n >= 64 {
          Copy(rest[..64 - n], data, n);
          assert data[..] == all[..64];
          OneBlock(data[..]);
          AtNext(compress, iv, message, p, all, 64);
          Compress(data[..], 1);
          rest := rest[64 - n..];
          assert all[64..] == rest;
          num := 0;
          Copy(Zeros(64), data, 0);
          p := p + 64;
        } else {
          Copy(rest, data, n);
          num := num + |rest|;
          assert data[..num] == all;
          AtEnd(message, p, all);
          return;
        }
      }
      TakeBlocks(rest, p);
    }

    /** With nothing held back: whole blocks go in straight from the input, the rest is held back. */
    method TakeBlocks(input: Octets, ghost start: nat)
      requires data.Length == 64 && num == 0 && CountIs(nl, nh, |message|)
      requires At(message, start, input) && h == Folded(compress, iv, message[..start])
      modifies this`h, this`num, data
      ensures Valid()
    {
      hide Folded, CountIs, Held, Aligned, At;
      var rest := input;
      ghost var p := start;
      var n := |rest| / 64;
      WholeBlocks(|rest|, n);
      if n > 0 {
        AtNext(compress, iv, message, p, rest, 64 * n);
        Compress(rest, n);
        rest := rest[64 * n..];
        p := p + 64 * n;
      }
      if |rest| != 0 {
        num := |rest|;
        Copy(rest, data, 0);
      }
      AtEnd(message, p, rest);
      AtIs(message, p, rest);
    }

    /** The end: mark, zeros and the length go in, and what is folded is the padded message. */
    method Final() returns (digest: H)
      requires Valid()
      modifies this`h, this`num, data
      ensures digest == h == Folded(compress, iv, Padded(true, message))
      ensures num == 0 && data[..] == Zeros(64)
    {
      hide Folded, Padded, Stored, Zeros, CountIs, Held, Length;
      LengthIs(nl, nh, |message|);
      LastBlocks(compress, iv, true, message, num);
      ghost var kept := message[|message| - num..] + [0x80];
      data[num] := 0x80;
      assert data[..num + 1] == kept;
      var n := num + 1;
      if n > 56 {
        Copy(Zeros(64 - num - 1), data, num + 1);
        assert data[..] == kept + Zeros(63 - num);
        h := compress(h, data[..]);
        n, kept := 0, [];
      }
      Copy(Zeros(56 - n), data, n);
      ghost var was := data[..];
      Copy(Stored(true, nl), data, 56);
      Copy(Stored(true, nh), data, 60);
      Composed(kept, Zeros(56 - |kept|), Stored(true, nl), Stored(true, nh), was);
      assert kept == [] ==> kept + Zeros(56) == Zeros(56);
      h := compress(h, data[..]);
      digest := h;
      num := 0;
      Copy(Zeros(64), data, 0);
    }
  }

  /** The whole message in one call. */
  method Hash<H>(compress: (H, Octets) -> H, iv: H, input: Octets) returns (digest: H)
    requires |input| < Two32
    ensures digest == Folded(compress, iv, Padded(true, input))
  {
    hide *;
    var c := new Context(compress, iv);
    c.Update(input);
    assert [] + input == input;
    digest := c.Final();
  }

  /** However the message is cut into calls, the digest is that of the whole. */
  method HashPieces<H>(compress: (H, Octets) -> H, iv: H, pieces: seq<Octets>) returns (digest: H)
    requires forall i :: 0 <= i < |pieces| ==> |pieces[i]| < Two32
    ensures digest == Folded(compress, iv, Padded(true, Joined(pieces)))
  {
    hide *;
    var c := new Context(compress, iv);
    for i := 0 to |pieces|
      invariant c.Valid() && fresh(c) && fresh(c.data) && c.compress == compress && c.iv == iv
      invariant c.message == Joined(pieces[..i])
    {
      JoinedSnoc(pieces[..i], pieces[i]);
      assert pieces[..i + 1] == pieces[..i] + [pieces[i]];
      c.Update(pieces[i]);
    }
    assert pieces[..|pieces|] == pieces;
    digest := c.Final();
  }
}
