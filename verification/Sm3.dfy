/** YS_Sm3: messages hashed piece by piece, whatever the compression function. */
module Sm3 {
  import opened Octets
  import opened BlockHash

  /** A 64-bit block counter and the octets held back. */
  predicate CountIs(blocks: nat, num: nat, n: nat) { blocks == (n - num) / 64 % Two64 && num == Held(n) }

  /** The two length words as the counter's shifts give them, cut to 32 bits. */
  function UpperWord(blocks: nat): nat { blocks / 0x80_0000 % Two32 }

  function LowerWord(blocks: nat, num: nat): nat { (blocks * 512 % Two64 + num * 8) % Two64 % Two32 }

  lemma NothingCounted()
    ensures CountIs(0, 0, 0)
  {
  }

  predicate Counted(blocks: nat, p: nat) { Aligned(p) && blocks == p / 64 % Two64 }

  lemma CountStarts(blocks: nat, num: nat, n: nat)
    requires CountIs(blocks, num, n)
    ensures Counted(blocks, n - num)
  {
  }

  lemma CountOn(blocks: nat, more: nat, p: nat)
    requires Counted(blocks, p)
    ensures Counted((blocks + more) % Two64, p + 64 * more)
  {
    assert (p + 64 * more) / 64 == p / 64 + more;
    SumWraps(p / 64, more);
  }

  lemma CountEnds(blocks: nat, p: nat, m: Octets, rest: Octets)
    requires Counted(blocks, p) && At(m, p, rest) && |rest| < 64
    ensures CountIs(blocks, |rest|, |m|)
  {
  }

  lemma SumWraps(a: nat, b: nat)
    ensures (a % Two64 + b) % Two64 == (a + b) % Two64
  {
  }

  /** Though only blocks are counted, and mod 2^64, the words written are those of the bit length mod 2^64. */
  lemma WordsAre(blocks: nat, num: nat, n: nat)
    requires CountIs(blocks, num, n)
    ensures UpperWord(blocks) == Upper(8 * n) && LowerWord(blocks, num) == Lower(8 * n)
    ensures Length(false, 8 * n) == Stored(false, UpperWord(blocks)) + Stored(false, LowerWord(blocks, num))
  {
    var b := n / 64;
    HeldIs(n, num);
    UpperWraps(b, num);
    LowerWraps(b, num);
    hide Stored;
  }

  lemma HeldIs(n: nat, num: nat)
    requires num == Held(n)
    ensures (n - num) / 64 == n / 64 && 8 * n == 512 * (n / 64) + 8 * num
  {
  }

  lemma UpperWraps(b: nat, num: nat)
    requires num < 64
    ensures (b % Two64) / 0x80_0000 % Two32 == (512 * b + 8 * num) / Two32 % Two32
  {
    assert (512 * b + 8 * num) / Two32 == b / 0x80_0000;
  }

  lemma LowerWraps(b: nat, num: nat)
    requires num < 64
    ensures ((b % Two64) * 512 % Two64 + num * 8) % Two64 % Two32 == (512 * b + 8 * num) % Two32
  {
    var q, r := b / Two64, b % Two64;
    assert b == Two64 * q + r;
    WrapTwice(r * 512, num * 8);
    assert 512 * b + 8 * num == Two32 * (Two32 * 512 * q) + (512 * r + 8 * num);
    WrapOff(Two32 * 512 * q, 512 * r + 8 * num);
  }

  lemma WrapOff(k: nat, a: nat)
    ensures (Two32 * k + a) % Two32 == a % Two32
  {
  }

  lemma WrapTwice(a: nat, b: nat)
    ensures (a % Two64 + b) % Two64 % Two32 == (a + b) % Two32
  {
    SumWraps(a, b);
    Narrower(a + b);
  }

  lemma Narrower(a: nat)
    ensures a % Two64 % Two32 == a % Two32
  {
  }

  class Context<H> {
    const compress: (H, Octets) -> H
    const iv: H
    var digest: H
    var nblocks: nat
    const block: array<Octet>
    var num: nat

    /** Everything fed so far. */
    ghost var message: Octets

    ghost predicate Valid()
      reads this, block
    {
      && block.Length == 64
      && CountIs(nblocks, num, |message|)
      && num == Held(|message|)
      && block[..num] == message[|message| - num..]
      && digest == Folded(compress, iv, message[..|message| - num])
    }

    constructor (compress: (H, Octets) -> H, iv: H)
      ensures Valid() && fresh(block) && message == []
      ensures this.compress == compress && this.iv == iv
    {
      hide CountIs, Held;
      NothingCounted();
      this.compress := compress;
      this.iv := iv;
      digest := iv;
      block := new Octet[64](_ => 0);
      nblocks, num := 0, 0;
      message := [];
    }

    method Compress(x: Octets, blocks: nat)
      requires 64 * blocks <= |x|
      modifies this`digest
      ensures digest == Folded(compress, old(digest), x[..64 * blocks])
    {
      var p, left := 0, blocks;
      while left > 0
        invariant p + 64 * left == 64 * blocks && p % 64 == 0
        invariant digest == Folded(compress, old(digest), x[..p])
      {
        FoldedSnoc(compress, old(digest), x[..p], x[p..p + 64]);
        assert x[..p + 64] == x[..p] + x[p..p + 64];
        digest := compress(digest, x[p..p + 64]);
        p := p + 64;
        left := left - 1;
      }
    }

    /** More octets, of any number: they complete the block held back, go in by whole blocks, and the rest is held
        back. */
    method Update(input: Octets)
      requires Valid() && |input| < Two32
      modifies this, block
      ensures Valid() && message == old(message) + input
    {
      hide Folded, CountIs, Counted, Held, Aligned, At;
      var rest := input;
      ghost var p, all := |message| - num, block[..num] + input;
      CountStarts(nblocks, num, |message|);
      AtHeld(message, input, p);
      message := message + input;
      if num != 0 {
        var left := 64 - num;
        if |input| < left {
          Copy(input, block, num);
          num := num + |input|;
          assert block[..num] == all;
          AtEnd(message, p, all);
          CountEnds(nblocks, p, message, all);
          return;
        }
        Copy(rest[..left], block, num);
        assert block[..] == all[..64];
        OneBlock(block[..]);
        AtNext(compress, iv, message, p, all, 64);
        Compress(block[..], 1);
        CountOn(nblocks, 1, p);
        nblocks := (nblocks + 1) % Two64;
        rest := rest[left..];
        assert all[64..] == rest;
        p := p + 64;
      }
      TakeBlocks(rest, p);
    }

    /** With nothing held back: whole blocks go in straight from the input, the rest is held back. */
    method TakeBlocks(input: Octets, ghost start: nat)
      requires block.Length == 64 && Counted(nblocks, start)
      requires At(message, start, input) && digest == Folded(compress, iv, message[..start])
      modifies this`digest, this`nblocks, this`num, block
      ensures Valid()
    {
      hide Folded, CountIs, Counted, Held, Aligned, At;
      var rest := input;
      var blocks := |rest| / 64;
      WholeBlocks(|rest|, blocks);
      AtNext(compress, iv, message, start, rest, 64 * blocks);
      CountOn(nblocks, blocks, start);
      Compress(rest, blocks);
      nblocks := (nblocks + blocks) % Two64;
      rest := rest[64 * blocks..];
      ghost var p := start + 64 * blocks;
      num := |rest|;
      if |rest| != 0 {
        Copy(rest, block, 0);
      }
      AtEnd(message, p, rest);
      AtIs(message, p, rest);
      CountEnds(nblocks, p, message, rest);
    }

    /** The end: mark, zeros and the length go in, and what is folded is the padded message. */
    method Final() returns (out: H)
      requires Valid()
      modifies this`digest, block
      ensures out == digest == Folded(compress, iv, Padded(false, message))
    {
      hide Folded, Padded, Stored, Zeros, CountIs, Held, Length, UpperWord, LowerWord;
      WordsAre(nblocks, num, |message|);
      LastBlocks(compress, iv, false, message, num);
      var upper, lower := Stored(false, UpperWord(nblocks)), Stored(false, LowerWord(nblocks, num));
      ghost var tail := message[|message| - num..] + [0x80];
      block[num] := 0x80;
      assert block[..num + 1] == tail;
      ghost var kept := tail;
      if num + 9 <= 64 {
        Copy(Zeros(64 - num - 9), block, num + 1);
      } else {
        Copy(Zeros(64 - num - 1), block, num + 1);
        assert block[..] == tail + Zeros(63 - num);
        digest := compress(digest, block[..]);
        Copy(Zeros(56), block, 0);
        kept := [];
      }
      ghost var was := block[..];
      Copy(upper, block, 56);
      Copy(lower, block, 60);
      Composed(kept, Zeros(56 - |kept|), upper, lower, was);
      assert kept == [] ==> kept + Zeros(56) == Zeros(56);
      digest := compress(digest, block[..]);
      out := digest;
    }
  }

  /** The whole message in one call. */
  method Hash<H>(compress: (H, Octets) -> H, iv: H, input: Octets) returns (digest: H)
    requires |input| < Two32
    ensures digest == Folded(compress, iv, Padded(false, input))
  {
    hide *;
    var c := new Context(compress, iv);
    c.Update(input);
    assert [] + input == input;
    digest := c.Final();
  }

  /** However the message is cut into calls, the digest is that of the whole. */
  method HashPieces<H>(compress: (H, Octets) -> H, iv: H, pieces: seq<Octets>) returns (digest: H)
    requires forall i :: 0 <= i < |pieces| ==> |pieces[i]| < Two32
    ensures digest == Folded(compress, iv, Padded(false, Joined(pieces)))
  {
    hide *;
    var c := new Context(compress, iv);
    for i := 0 to |pieces|
      invariant c.Valid() && fresh(c) && fresh(c.block) && c.compress == compress && c.iv == iv
      invariant c.message == Joined(pieces[..i])
    {
      JoinedSnoc(pieces[..i], pieces[i]);
      assert pieces[..i + 1] == pieces[..i] + [pieces[i]];
      c.Update(pieces[i]);
    }
    assert pieces[..|pieces|] == pieces;
    digest := c.Final();
  }
}
