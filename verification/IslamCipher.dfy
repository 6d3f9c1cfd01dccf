/** YS_Islam: padding, octet-level encryption in buffers, and texts sealed under a pin. */
module IslamCipher {
  import opened Octets
  import opened BlockCipher
  import Base64

  // ----- Padding -----

  function PadLen(n: nat): (k: nat)
    ensures 1 <= k <= 16 && (n + k) % 16 == 0
  {
    16 - n % 16
  }

  function PadOctet(k: nat): Octet
    requires k <= 16
  {
    k as Octet
  }

  function Padded(x: Octets): (y: Octets)
    ensures |y| % 16 == 0 && |y| == |x| + PadLen(|x|)
  {
    x + seq(PadLen(|x|), _ => PadOctet(PadLen(|x|)))
  }

  /** The last octet says how much to drop; nothing is dropped when it cannot be a length of padding. */
  function Unpadded(x: Octets): (y: Octets)
    requires x != []
    ensures |y| <= |x| && y == x[..|y|]
  {
    var k := x[|x| - 1];
    if k > 16 || k as nat > |x| then x else x[..|x| - k as nat]
  }

  lemma PadOctetBack(k: nat)
    requires k <= 16
    ensures PadOctet(k) <= 16 && PadOctet(k) as nat == k
  {
  }

  /** Removing the padding undoes adding it, for every length and content. */
  lemma UnpadPadded(x: Octets)
    ensures Unpadded(Padded(x)) == x
  {
    hide PadOctet, PadLen;
    PadOctetBack(PadLen(|x|));
    assert Padded(x)[..|x|] == x;
  }

  /** Padding, told from its octets alone: whole blocks, at most one more than needed, and every octet behind the
      data says how many there are. */
  lemma PadShows(x: Octets, y: Octets)
    ensures y == Padded(x) <==>
      |y| % 16 == 0 && |x| < |y| <= |x| + 16 && y[..|x|] == x && forall i | |x| <= i < |y| :: y[i] as nat == |y| - |x|
  {
    var k := PadLen(|x|);
    PadOctetBack(k);
    if |y| % 16 == 0 && |x| < |y| <= |x| + 16 && y[..|x|] == x && forall i | |x| <= i < |y| :: y[i] as nat == |y| - |x| {
      assert |y| - |x| == k;
      forall i | 0 <= i < |y| ensures y[i] == Padded(x)[i] {
        if i >= |x| { SameOctet(y[i], PadOctet(k)); } else { assert y[i] == y[..|x|][i]; }
      }
    }
    if y == Padded(x) { assert y[..|x|] == x; }
  }

  lemma SameOctet(a: Octet, b: Octet)
    requires a as nat == b as nat
    ensures a == b
  {
  }

  // ----- Octets in buffers -----

  method AddPad(data: array<Octet>, len: nat, out: array<Octet>) returns (outLen: nat)
    requires data != out && len < 0x1_0000_0000 && len <= data.Length && |Padded(data[..len])| <= out.Length
    modifies out
    ensures outLen == |Padded(data[..len])| % 0x1_0000_0000
    ensures out[..] == Padded(data[..len]) + old(out[len + PadLen(len)..])
  {
    hide PadOctet, PadLen;
    var k := PadLen(len);
    Copy(data[..len], out, 0);
    Copy(seq(k, _ => PadOctet(k)), out, len);
    outLen := (len + k) % 0x1_0000_0000;
  }

  /** Encryption in a buffer of its own: the padded octets are enciphered where they stand. */
  method EncryptOctets(t: Tables, inp: array<Octet>, len: nat, out: array<Octet>, key: Octets) returns (outLen: nat)
    requires t.Valid() && |key| == 16
    requires inp != out && len < 0x1_0000_0000 && len <= inp.Length && |Padded(inp[..len])| <= out.Length
    modifies out
    ensures len < 0xFFFF_FFF0 ==> outLen == |Padded(inp[..len])| && out[..outLen] == Ecb(t, RoundKeys(t, key), Padded(inp[..len]))
    ensures len >= 0xFFFF_FFF0 ==> outLen == 0 && out[..len] == inp[..len]
  {
    hide PadOctet, Ecb, RoundKeys;
    ghost var y := Padded(inp[..len]);
    outLen := AddPad(inp, len, out);
    assert out[..|y|] == y;
    assert y[..len] == inp[..len];
    EcbEncrypt(t, out, outLen, key, out);
  }

  /** What the decrypted buffer holds before the padding goes: untouched unless the length is whole blocks. */
  function Deciphered(t: Tables, key: Octets, x: Octets, was: Octets): (y: Octets)
    requires t.Valid() && |key| == 16 && |x| == |was|
    ensures |y| == |x|
  {
    if |x| % 16 != 0 then was else Ecb(t, Rev(RoundKeys(t, key)), x)
  }

  method DecryptOctets(t: Tables, inp: array<Octet>, len: nat, out: array<Octet>, key: Octets) returns (outLen: nat)
    requires t.Valid() && |key| == 16
    requires 0 < len < 0x1_0000_0000 && len <= inp.Length && len <= out.Length
    modifies out
    ensures out[..len] == Deciphered(t, key, old(inp[..len]), old(out[..len]))
    ensures outLen <= len && out[..outLen] == Unpadded(Deciphered(t, key, old(inp[..len]), old(out[..len])))
  {
    hide Ecb, RoundKeys, Rev;
    EcbDecrypt(t, inp, len, key, out);
    ghost var y := Deciphered(t, key, old(inp[..len]), old(out[..len]));
    assert out[..len] == y;
    assert out[len - 1] == y[len - 1];
    outLen := len;
    var k := out[len - 1];
    if k > 16 || k as nat > len {
      return;
    }
    outLen := len - k as nat;
    assert out[..outLen] == y[..outLen];
  }

  lemma {:induction false} OctetsRoundTrip(t: Tables, key: Octets, x: Octets, was: Octets)
    requires t.Valid() && |key| == 16 && |was| == |Padded(x)|
    ensures Unpadded(Deciphered(t, key, Ecb(t, RoundKeys(t, key), Padded(x)), was)) == x
  {
    hide Ecb, Rev, RoundKeys, Padded, Unpadded;
    EcbRoundTrip(t, key, Padded(x));
    UnpadPadded(x);
  }

  // ----- Texts under a pin -----

  /** Every way a call can end: a text, a refusal (-1), or C++ giving no meaning (a null string, an empty string's
      last octet, a substring past the end). */
  datatype Outcome = Done(text: Octets) | Refused | Undefined

  /** "islam:" */
  const Mark: Octets := [105, 115, 108, 97, 109, 58]

  function Sealed(t: Tables, key: Octets, data: Octets, pin: Octets): Outcome
    requires t.Valid() && |key| == 16
  {
    if |pin| < 4 then Refused else Done(Mark + Base64.Encoded(Ecb(t, RoundKeys(t, key), Padded(pin + data))))
  }

  /** Padded octets beyond 2^32 - 1 never finish encoding: the encoder's index is 32 bits wide. */
  method Encrypt(t: Tables, key: Octets, data: Octets, pin: Octets) returns (r: Outcome)
    requires t.Valid() && |key| == 16 && |Padded(pin + data)| < 0x1_0000_0000
    ensures r == Sealed(t, key, data, pin)
  {
    hide Ecb, RoundKeys, Padded;
    if |pin| < 4 {
      return Refused;
    }
    var src := Padded(pin + data);
    var text := new Octet[|src|](i requires 0 <= i < |src| => src[i]);
    var buf := new Octet[|src|];
    assert text[..|src|] == src;
    EcbEncrypt(t, text, |src|, key, buf);
    var enc := buf[..];
    assert enc == Ecb(t, RoundKeys(t, key), src);
    var letters := Base64.Encode(enc);
    return Done(Mark + letters);
  }

  /** `dec.compare(0, 4, pin)` is zero. */
  predicate PinMatches(dec: Octets, pin: Octets) { (if |dec| <= 4 then dec else dec[..4]) == pin }

  function Opened(t: Tables, key: Octets, enc: Octets, pin: Octets): Outcome
    requires t.Valid() && |key| == 16
  {
    if |enc| < 22 || enc[..6] != Mark then Refused else
      match Base64.Decoded(enc[6..])
      case NullText => Undefined
      case Text(bin) =>
        if |bin| % 16 != 0 then Refused
        else if bin == [] then Undefined
        else
          var dec := Unpadded(Ecb(t, Rev(RoundKeys(t, key)), bin));
          if !PinMatches(dec, pin) then Refused
          else if |dec| < 4 then Undefined
          else Done(dec[4..])
  }

  lemma DecodedShort(t: Octets)
    ensures Base64.Decoded(t).Text? ==> |Base64.Decoded(t).octets| <= |t|
  {
    hide Base64.OctetAt;
  }

  method Decrypt(t: Tables, key: Octets, enc: Octets, pin: Octets) returns (r: Outcome)
    requires t.Valid() && |key| == 16 && |enc| - 6 < 0x1_0000_0000
    ensures r == Opened(t, key, enc, pin)
  {
    hide Ecb, RoundKeys, Rev, Base64.Decoded;
    if |enc| < 22 {
      return Refused;
    }
    if enc[..6] != Mark {
      return Refused;
    }
    var reading := Base64.Decode(enc[6..]);
    if reading.NullText? {
      return Undefined;
    }
    var bin := reading.octets;
    DecodedShort(enc[6..]);
    if |bin| % 16 != 0 {
      return Refused;
    }
    if |bin| == 0 {
      return Undefined;
    }
    var text := new Octet[|bin|](i requires 0 <= i < |bin| => bin[i]);
    var buf := new Octet[|bin|];
    assert text[..|bin|] == bin;
    EcbDecrypt(t, text, |bin|, key, buf);
    var dec := Unpadded(buf[..]);
    if !PinMatches(dec, pin) {
      return Refused;
    }
    if |dec| < 4 {
      return Undefined;
    }
    return Done(dec[4..]);
  }

  /** The mark is these letters. */
  lemma MarkSpells()
    ensures |Mark| == |"islam:"| && forall i | 0 <= i < |Mark| :: Mark[i] as int == "islam:"[i] as int
  {
    assert Mark[0] as int == 'i' as int && Mark[1] as int == 's' as int && Mark[2] as int == 'l' as int;
    assert Mark[3] as int == 'a' as int && Mark[4] as int == 'm' as int && Mark[5] as int == ':' as int;
  }

  /** Nothing opens but the mark and letters for whole enciphered blocks whose octets, padding taken off, begin with the pin. */
  lemma {:induction false} OpensOnly(t: Tables, key: Octets, enc: Octets, pin: Octets)
    requires t.Valid() && |key| == 16 && Opened(t, key, enc, pin).Done?
    ensures exists y: Octets :: 
      && |y| % 16 == 0 && y != [] && Unpadded(y) == pin + Opened(t, key, enc, pin).text && |pin| == 4
      && enc[..6] == Mark && Base64.Decoded(enc[6..]) == Base64.Text(Ecb(t, RoundKeys(t, key), y))
  {
    hide Ecb, RoundKeys, Rev, Unpadded, Base64.Decoded;
    var bin := Base64.Decoded(enc[6..]).octets;
    var y := Ecb(t, Rev(RoundKeys(t, key)), bin);
    EcbRoundTrip(t, key, bin);
    var dec := Unpadded(y);
    assert dec == dec[..4] + dec[4..];
  }

  /** Opening a sealed text, for any two pins: it opens for exactly the first four octets of the sealing pin, and what
      comes out is the data with the rest of that pin in front. */
  lemma {:induction false} OpenedSealed(t: Tables, key: Octets, data: Octets, pin: Octets, other: Octets)
    requires t.Valid() && |key| == 16 && |pin| >= 4
    ensures Opened(t, key, Sealed(t, key, data, pin).text, other) == if other == pin[..4] then Done(pin[4..] + data) else Refused
  {
    hide Ecb, RoundKeys, Rev, Padded, Unpadded, Base64.Decoded, Base64.Encoded;
    var src := pin + data;
    var y := Padded(src);
    var enc := Ecb(t, RoundKeys(t, key), y);
    var text := Sealed(t, key, data, pin).text;
    Base64.RoundTrip(enc);
    Base64.EncodedShape(enc);
    assert text[..6] == Mark && text[6..] == Base64.Encoded(enc);
    assert |enc| >= 16;
    EcbRoundTrip(t, key, y);
    UnpadPadded(src);
    assert src[..4] == pin[..4] && src[4..] == pin[4..] + data;
  }

  /** The round trip with one pin gives the data back exactly when the pin has four octets. */
  lemma {:induction false} PinRoundTrip(t: Tables, key: Octets, data: Octets, pin: Octets)
    requires t.Valid() && |key| == 16
    ensures Sealed(t, key, data, pin).Done? && Opened(t, key, Sealed(t, key, data, pin).text, pin) == Done(data) <==> |pin| == 4
  {
    hide Opened;
    if |pin| >= 4 {
      OpenedSealed(t, key, data, pin, pin);
      assert |pin| == 4 ==> pin[..4] == pin && pin[4..] + data == data;
    }
  }

  /** A pin of five octets seals a text that it cannot open again. */
  lemma LongPinIsLost(t: Tables, key: Octets, data: Octets)
    requires t.Valid() && |key| == 16
    ensures var pin: Octets := [49, 50, 51, 52, 53];
      Sealed(t, key, data, pin).Done? && Opened(t, key, Sealed(t, key, data, pin).text, pin) == Refused
  {
    hide Opened;
    var pin: Octets := [49, 50, 51, 52, 53];
    OpenedSealed(t, key, data, pin, pin);
    assert |pin[..4]| != |pin|;
  }
}
