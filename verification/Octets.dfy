/** Octets, and 32-bit words stored in them with the highest octet first. */
module Octets {
  type Octet = bv8
  type Octets = seq<Octet>
  type Word = bv32

  function Join4(a: Octet, b: Octet, c: Octet, d: Octet): Word
  {
    ((a as Word) << 24) | ((b as Word) << 16) | ((c as Word) << 8) | (d as Word)
  }

  function Low(w: Word): Octet { (w & 0xFF) as Octet }

  /** Octet i of a word, the highest first. */
  function Part(w: Word, i: nat): Octet
  {
    if i == 0 then Low(w >> 24) else if i == 1 then Low(w >> 16) else if i == 2 then Low(w >> 8) else Low(w)
  }

  function GetWord(s: Octets, p: nat): Word
    requires p + 4 <= |s|
  {
    Join4(s[p], s[p + 1], s[p + 2], s[p + 3])
  }

  function PutWord(w: Word): (s: Octets)
    ensures |s| == 4
  {
    [Part(w, 0), Part(w, 1), Part(w, 2), Part(w, 3)]
  }

  lemma PartOfJoin(a: Octet, b: Octet, c: Octet, d: Octet)
    ensures var w := Join4(a, b, c, d); Part(w, 0) == a && Part(w, 1) == b && Part(w, 2) == c && Part(w, 3) == d
  {
  }

  lemma JoinOfParts(w: Word)
    ensures Join4(Part(w, 0), Part(w, 1), Part(w, 2), Part(w, 3)) == w
  {
  }

  lemma GetPut(w: Word)
    ensures GetWord(PutWord(w), 0) == w
  {
    hide Join4, Part;
    JoinOfParts(w);
  }

  lemma PutGet(s: Octets, p: nat)
    requires p + 4 <= |s|
    ensures PutWord(GetWord(s, p)) == s[p..p + 4]
  {
    hide Join4, Part;
    PartOfJoin(s[p], s[p + 1], s[p + 2], s[p + 3]);
  }

  /** Octets copied into a buffer at p; the rest of it stays. */
  method Copy(src: Octets, out: array<Octet>, p: nat)
    requires p + |src| <= out.Length
    modifies out
    ensures out[..] == old(out[..p]) + src + old(out[p + |src|..])
  {
    forall i | 0 <= i < |src| {
      out[p + i] := src[i];
    }
  }
}
